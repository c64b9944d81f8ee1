/** Sheets, records, entitlements and bookings stay in step over every run of attendance
    commands. */
module AttendanceSafety {
  import opened Collections
  import opened Marks
  import opened Attendance

  // ---------- the invariant ----------

  /** A record stands on a sheet, and carries a booking if and only if it is a makeup's, an
      enrollment if it is regular; a locked sheet has no unmarked record. */
  predicate RecordOk(r: Register, k: Key)
    requires k in r.records
  {
    var record := r.records[k];
    && k.0 in r.sheets
    && (r.sheets[k.0] == Locked ==> record.mark != Unmarked)
    && (match record.source
        case Regular => record.booking.None? && record.enrollment.Some? && record.mark != Makeup
        case FromMakeup =>
          record.booking.Some? && record.booking.value < |r.bookings| && KeyOf(r.bookings[record.booking.value]) == k
          && (record.mark == Unmarked || MakeupMark(record.mark)))
  }

  /** A booked booking has its record, on an open sheet of a session no later than its entitlement's
      expiry; while one session is being settled, its
      bookings are exempt from the sheet being open. */
  predicate BookingOk(r: Register, exempt: Option<Id>, b: nat)
    requires b < |r.bookings|
  {
    var booking := r.bookings[b];
    && booking.entitlement in r.entitlements
    && (booking.status == Booked ==>
          && booking.destination in r.sheets
          && (exempt == Some(booking.destination) || r.sheets[booking.destination] == Open)
          && KeyOf(booking) in r.records && r.records[KeyOf(booking)].booking == Some(b)
          && booking.destination in r.sessions
          && r.sessions[booking.destination].date <= r.entitlements[booking.entitlement].expires)
  }

  predicate UsedFor(bookings: seq<Booking>, e: Key) {
    exists i | 0 <= i < |bookings| :: bookings[i].status == Used && bookings[i].entitlement == e
  }

  predicate Live(e: Entitlement) {
    e.status == Available || e.status == Reserved || e.status == Consumed
  }

  /** An entitlement comes from a regular record on a locked sheet: excused if it is live, no
      longer if it is revoked. It is reserved if and only if booked, consumed if and only if used. */
  predicate RightOk(r: Register, e: Key)
    requires e in r.entitlements
  {
    var right := r.entitlements[e];
    && e in r.records && r.records[e].source == Regular && e.0 in r.sheets && r.sheets[e.0] == Locked
    && e.0 in r.sessions && right.expires == r.sessions[e.0].date + EXPIRATION_DAYS
    && right.enrollment == r.records[e].enrollment
    && (Live(right) ==> r.records[e].mark == AbsentExcused)
    && (right.status == Revoked ==> r.records[e].mark != AbsentExcused)
    && (right.status == Reserved <==> ActiveFor(r.bookings, e))
    && (right.status == Consumed <==> UsedFor(r.bookings, e))
  }

  ghost predicate RecordsOk(r: Register) { forall k | k in r.records :: RecordOk(r, k) }
  ghost predicate BookingsOk(r: Register, exempt: Option<Id>) {
    forall b: nat | b < |r.bookings| :: BookingOk(r, exempt, b)
  }

  ghost predicate RightsOk(r: Register) { forall e | e in r.entitlements :: RightOk(r, e) }
  ghost predicate SheetsOk(r: Register) { forall s | s in r.sheets :: s in r.sessions }

  /** No entitlement has two booked bookings. */
  ghost predicate OneActive(bookings: seq<Booking>) {
    forall i, j | 0 <= i < j < |bookings| && bookings[i].entitlement == bookings[j].entitlement ::
      bookings[i].status != Booked || bookings[j].status != Booked
  }

  ghost predicate Settling(r: Register, exempt: Option<Id>) {
    RecordsOk(r) && BookingsOk(r, exempt) && RightsOk(r) && SheetsOk(r) && OneActive(r.bookings)
  }

  ghost predicate Sound(r: Register) {
    Settling(r, None)
  }

  // ---------- initialization ----------

  lemma {:induction false} RosterAdded(records: map<Key, Record>, session: Id, roster: seq<(Id, Id)>, k: nat)
    requires k <= |roster|
    ensures var records' := AddRoster(records, session, roster, k);
            && (forall x | x in records :: x in records' && records'[x] == records[x])
            && (forall x | x in records' && x !in records ::
                  x.0 == session && records'[x].source == Regular && records'[x].booking.None?
                    && records'[x].enrollment.Some?
                  && records'[x].mark == Unmarked)
  {
    if k != 0 { RosterAdded(records, session, roster, k - 1); }
  }

  /** Bookings that have their record already place nothing. */
  lemma {:induction false} NothingPlaced(records: map<Key, Record>, bookings: seq<Booking>, session: Id, k: nat)
    requires k <= |bookings|
    requires forall i | 0 <= i < k && Targets(bookings[i], session) ::
      KeyOf(bookings[i]) in records && records[KeyOf(bookings[i])].source == FromMakeup
    ensures PlaceAll(records, bookings, session, k) == records
  {
    if k != 0 { NothingPlaced(records, bookings, session, k - 1); }
  }

  /** What initializing a session may do: open its sheet and, with it, add unmarked records of the
      roster. */
  ghost predicate Opened(r: Register, r': Register, session: Id) {
    && r' == r.(sheets := r'.sheets, records := r'.records)
    && session in r'.sheets && r'.sheets == (if session in r.sheets then r.sheets else r.sheets[session := Open])
    && (forall x | x in r.records :: x in r'.records && r'.records[x] == r.records[x])
    && (forall x | x in r'.records && x !in r.records ::
          x.0 == session && session !in r.sheets
          && r'.records[x].source == Regular && r'.records[x].booking.None? && r'.records[x].enrollment.Some?
          && r'.records[x].mark == Unmarked)
  }

  lemma InitializeOpens(r: Register, env: Env, session: Id)
    requires Sound(r) && session in r.sessions
    ensures Opened(r, Initialize(r, env, session), session)
  {
    if !(session in r.sheets && r.sheets[session] == Locked) {
      var roster := RosterOf(env, r.sessions[session].class_);
      RosterAdded(r.records, session, roster, |roster|);
      var records := if session in r.sheets then r.records else AddRoster(r.records, session, roster, |roster|);
      forall i | 0 <= i < |r.bookings| && Targets(r.bookings[i], session)
        ensures KeyOf(r.bookings[i]) in records && records[KeyOf(r.bookings[i])].source == FromMakeup
      {
        assert BookingOk(r, None, i);
        assert RecordOk(r, KeyOf(r.bookings[i]));
      }
      NothingPlaced(records, r.bookings, session, |r.bookings|);
    }
  }

  lemma OpenedSound(r: Register, r': Register, session: Id)
    requires Sound(r) && session in r.sessions && Opened(r, r', session)
    ensures Sound(r')
  {
    forall k | k in r'.records ensures RecordOk(r', k) { if k in r.records { assert RecordOk(r, k); } }
    forall b: nat | b < |r'.bookings| ensures BookingOk(r', None, b) { assert BookingOk(r, None, b); }
    forall e | e in r'.entitlements ensures RightOk(r', e) { assert RightOk(r, e); }
  }

  /** Under the invariant, initializing never disturbs what is there. */
  lemma InitializeSound(r: Register, env: Env, session: Id)
    requires Sound(r) && session in r.sessions
    ensures Sound(Initialize(r, env, session)) && Opened(r, Initialize(r, env, session), session)
  {
    InitializeOpens(r, env, session);
    OpenedSound(r, Initialize(r, env, session), session);
  }

  lemma AddedSound(r: Register, id: Id, class_: Id, date: int)
    requires Sound(r) && id !in r.sessions
    ensures Sound(Added(r, id, class_, date))
  {
    var r' := Added(r, id, class_, date);
    forall k | k in r'.records ensures RecordOk(r', k) { assert RecordOk(r, k); }
    forall b: nat | b < |r'.bookings| ensures BookingOk(r', None, b) { assert BookingOk(r, None, b); }
    forall e | e in r'.entitlements ensures RightOk(r', e) { assert RightOk(r, e); }
  }

  // ---------- marking ----------

  lemma UpdateSound(r: Register, key: Key, mark: Mark)
    requires Sound(r) && UpdateRecord(r, key, mark).Done?
    ensures Sound(UpdateRecord(r, key, mark).register)
  {
    var r' := UpdateRecord(r, key, mark).register;
    forall k | k in r'.records ensures RecordOk(r', k) { assert RecordOk(r, k); }
    forall b: nat | b < |r'.bookings| ensures BookingOk(r', None, b) { assert BookingOk(r, None, b); }
    forall e | e in r'.entitlements ensures RightOk(r', e) { assert RightOk(r, e); }
  }

  // ---------- ending a booking ----------

  lemma ActiveAfter(bookings: seq<Booking>, b: nat, status: BookingStatus, e: Key)
    requires b < |bookings| && OneActive(bookings) && bookings[b].status == Booked && status != Booked
    ensures var bookings' := bookings[b := bookings[b].(status := status)];
            && OneActive(bookings')
            && (ActiveFor(bookings', e) <==> ActiveFor(bookings, e) && e != bookings[b].entitlement)
            && (UsedFor(bookings', e) <==> UsedFor(bookings, e) || (status == Used && e == bookings[b].entitlement))
  {
    var bookings' := bookings[b := bookings[b].(status := status)];
    if ActiveFor(bookings, e) && e != bookings[b].entitlement {
      var i :| 0 <= i < |bookings| && bookings[i].status == Booked && bookings[i].entitlement == e;
      assert bookings'[i] == bookings[i];
    }
    if UsedFor(bookings, e) {
      var i :| 0 <= i < |bookings| && bookings[i].status == Used && bookings[i].entitlement == e;
      assert bookings'[i] == bookings[i];
    }
    if status == Used { assert bookings'[b].status == Used; }
  }

  predicate EndsAs(status: BookingStatus, right: Entitlement) {
    if status == Used then right.status == Consumed
    else status == Cancelled && (right.status == Available || right.status == Expired)
  }

  /** A booked booking is cancelled and its entitlement returned, or it is used and its
      entitlement consumed. */
  lemma BookingEnds(r: Register, exempt: Option<Id>, b: nat, status: BookingStatus, right: Entitlement)
    requires Settling(r, exempt) && b < |r.bookings| && r.bookings[b].status == Booked && EndsAs(status, right)
    requires r.bookings[b].entitlement in r.entitlements
             ==> right == r.entitlements[r.bookings[b].entitlement].(status := right.status)
    ensures r.bookings[b].entitlement in r.entitlements && r.entitlements[r.bookings[b].entitlement].status == Reserved
    ensures Settling(EndBooking(r, b, status).(entitlements := r.entitlements[r.bookings[b].entitlement := right]),
                     exempt)
  {
    var e := r.bookings[b].entitlement;
    var r' := EndBooking(r, b, status).(entitlements := r.entitlements[e := right]);
    assert BookingOk(r, exempt, b);
    assert RightOk(r, e);
    forall k | k in r'.records ensures RecordOk(r', k) { assert RecordOk(r, k); }
    forall i: nat | i < |r'.bookings| ensures BookingOk(r', exempt, i) { assert BookingOk(r, exempt, i); }
    forall x | x in r'.entitlements ensures RightOk(r', x) {
      ActiveAfter(r.bookings, b, status, x);
      assert x in r.entitlements && RightOk(r, x);
    }
    ActiveAfter(r.bookings, b, status, e);
  }

  // ---------- finalization ----------

  lemma LockSettling(r: Register, session: Id)
    requires Sound(r) && session in r.sessions && session in r.sheets && !HasUnmarked(r.records, session)
    ensures Settling(Lock(r, session), Some(session))
  {
    var r' := Lock(r, session);
    forall k | k in r'.records ensures RecordOk(r', k) { assert RecordOk(r, k); }
    forall b: nat | b < |r'.bookings| ensures BookingOk(r', Some(session), b) { assert BookingOk(r, None, b); }
    forall e | e in r'.entitlements ensures RightOk(r', e) { assert RightOk(r, e); }
  }

  lemma NewRightsSettling(r: Register, env: Env, exempt: Option<Id>, session: Id)
    requires Settling(r, exempt) && session in r.sessions && session in r.sheets && r.sheets[session] == Locked
    ensures Settling(CreateEntitlements(r, env, session), exempt)
  {
    var r' := CreateEntitlements(r, env, session);
    forall k | k in r'.records ensures RecordOk(r', k) { assert RecordOk(r, k); }
    forall b: nat | b < |r'.bookings| ensures BookingOk(r', exempt, b) { assert BookingOk(r, exempt, b); }
    forall e | e in r'.entitlements ensures RightOk(r', e) {
      if e in r.entitlements {
        assert RightOk(r, e);
      } else {
        forall i | 0 <= i < |r.bookings| ensures r.bookings[i].entitlement != e { assert BookingOk(r, exempt, i); }
      }
    }
  }

  /** Nothing but the statuses of bookings and entitlements changes while bookings are settled. */
  ghost predicate Settles(r: Register, r': Register, session: Id) {
    && r' == r.(bookings := r'.bookings, entitlements := r'.entitlements) && |r'.bookings| == |r.bookings|
    && (forall i | 0 <= i < |r.bookings| ::
          r'.bookings[i] == r.bookings[i].(status := r'.bookings[i].status)
          && (!Targets(r.bookings[i], session) ==> r'.bookings[i] == r.bookings[i]))
  }

  /** The first loop has settled the first k bookings. */
  ghost predicate NoShowsOut(r: Register, r': Register, session: Id, k: nat) {
    && k <= |r.bookings| && Settling(r', Some(session)) && Settles(r, r', session)
    && (forall i | 0 <= i < k && Targets(r'.bookings[i], session) :: Attended(r'.records, r'.bookings, i))
    && (forall i | k <= i < |r.bookings| :: r'.bookings[i] == r.bookings[i])
  }

  lemma NoShowCancelled(r: Register, today: int, session: Id, b: nat)
    requires b < |r.bookings| && Settling(r, Some(session))
    ensures Settling(CancelNoShow(r, today, session, b), Some(session))
  {
    if Targets(r.bookings[b], session) {
      assert BookingOk(r, Some(session), b);
      BookingEnds(r, Some(session), b, Cancelled, Returned(r.entitlements[r.bookings[b].entitlement], today));
    }
  }

  lemma NextNoShow(r: Register, r': Register, today: int, session: Id, k: nat)
    requires k < |r.bookings| && NoShowsOut(r, r', session, k)
    ensures NoShowsOut(r, CancelNoShow(r', today, session, k), session, k + 1)
  {
    NoShowCancelled(r', today, session, k);
  }

  lemma {:induction false} NoShowsCancelled(r: Register, today: int, session: Id, k: nat)
    requires k <= |r.bookings| && Settling(r, Some(session))
    ensures NoShowsOut(r, CancelNoShows(r, today, session, k), session, k)
  {
    if k != 0 {
      NoShowsCancelled(r, today, session, k - 1);
      NextNoShow(r, CancelNoShows(r, today, session, k - 1), today, session, k - 1);
    }
  }

  /** The second loop has settled the first k bookings. */
  ghost predicate AttendedOut(r: Register, r': Register, session: Id, k: nat) {
    && k <= |r.bookings| && Settling(r', Some(session)) && Settles(r, r', session)
    && (forall i | 0 <= i < k :: !Targets(r'.bookings[i], session))
    && (forall i | k <= i < |r.bookings| :: r'.bookings[i] == r.bookings[i])
  }

  lemma BookingUsed(r: Register, session: Id, b: nat)
    requires b < |r.bookings| && Settling(r, Some(session))
    ensures Settling(UseBooking(r, session, b), Some(session))
  {
    if Targets(r.bookings[b], session) {
      assert BookingOk(r, Some(session), b);
      BookingEnds(r, Some(session), b, Used, r.entitlements[r.bookings[b].entitlement].(status := Consumed));
    }
  }

  lemma NextAttended(r: Register, r': Register, session: Id, k: nat)
    requires k < |r.bookings| && AttendedOut(r, r', session, k)
    requires Targets(r.bookings[k], session) ==> Attended(r.records, r.bookings, k)
    ensures AttendedOut(r, UseBooking(r', session, k), session, k + 1)
  {
    BookingUsed(r', session, k);
    assert r'.bookings[k] == r.bookings[k];
  }

  lemma {:induction false} AttendedUsed(r: Register, session: Id, k: nat)
    requires k <= |r.bookings| && Settling(r, Some(session))
    requires forall i | 0 <= i < |r.bookings| && Targets(r.bookings[i], session) :: Attended(r.records, r.bookings, i)
    ensures AttendedOut(r, UseAttended(r, session, k), session, k)
  {
    if k != 0 {
      AttendedUsed(r, session, k - 1);
      NextAttended(r, UseAttended(r, session, k - 1), session, k - 1);
    }
  }

  lemma SettledSound(r: Register, session: Id)
    requires Settling(r, Some(session))
    requires forall i | 0 <= i < |r.bookings| :: !Targets(r.bookings[i], session)
    ensures Sound(r)
  {
    forall b: nat | b < |r.bookings| ensures BookingOk(r, None, b) { assert BookingOk(r, Some(session), b); }
  }

  /** Reconciling leaves no booking of the session booked: attended ones are used, others cancelled. */
  lemma ReconcileSound(r: Register, today: int, session: Id)
    requires Settling(r, Some(session))
    ensures Sound(Reconcile(r, today, session))
    ensures forall i | 0 <= i < |Reconcile(r, today, session).bookings| ::
            !Targets(Reconcile(r, today, session).bookings[i], session)
  {
    NoShowsCancelled(r, today, session, |r.bookings|);
    var middle := CancelNoShows(r, today, session, |r.bookings|);
    AttendedUsed(middle, session, |r.bookings|);
    SettledSound(UseAttended(middle, session, |r.bookings|), session);
  }

  lemma FinalizeSound(r: Register, env: Env, session: Id)
    requires Sound(r) && Finalize(r, env, session).Done?
    ensures Sound(Finalize(r, env, session).register)
  {
    var ready := Initialize(r, env, session);
    InitializeSound(r, env, session);
    LockSettling(ready, session);
    NewRightsSettling(Lock(ready, session), env, Some(session), session);
    ReconcileSound(CreateEntitlements(Lock(ready, session), env, session), env.today, session);
  }

  // ---------- reconciliation, exactly ----------

  predicate NoShow(r: Register, session: Id, i: nat)
    requires i < |r.bookings|
  {
    Targets(r.bookings[i], session) && !Attended(r.records, r.bookings, i)
  }

  predicate Shown(r: Register, session: Id, i: nat)
    requires i < |r.bookings|
  {
    Targets(r.bookings[i], session) && Attended(r.records, r.bookings, i)
  }

  /** One of the first k bookings is a no-show of the session, on the entitlement. */
  predicate NoShowOf(r: Register, session: Id, k: nat, e: Key) {
    exists i: nat | i < k && i < |r.bookings| :: NoShow(r, session, i) && r.bookings[i].entitlement == e
  }

  predicate ShownOf(r: Register, session: Id, k: nat, e: Key) {
    exists i: nat | i < k && i < |r.bookings| :: Shown(r, session, i) && r.bookings[i].entitlement == e
  }

  /** Every booking and entitlement as it comes out of reconciling the session, each by itself. */
  function SettledBooking(r: Register, session: Id, i: nat): Booking
    requires i < |r.bookings|
  {
    if NoShow(r, session, i) then r.bookings[i].(status := Cancelled)
    else if Shown(r, session, i) then r.bookings[i].(status := Used)
    else r.bookings[i]
  }

  function SettledRight(r: Register, today: int, session: Id, e: Key): Entitlement
    requires e in r.entitlements
  {
    if NoShowOf(r, session, |r.bookings|, e) then Returned(r.entitlements[e], today)
    else if ShownOf(r, session, |r.bookings|, e) then r.entitlements[e].(status := Consumed)
    else r.entitlements[e]
  }

  function Settled(r: Register, today: int, session: Id): Register {
    r.(bookings := seq(|r.bookings|, i requires 0 <= i < |r.bookings| => SettledBooking(r, session, i)),
       entitlements := map e | e in r.entitlements :: SettledRight(r, today, session, e))
  }

  /** Bookings and entitlements after the first loop has been over the first k bookings. */
  ghost predicate NoShowRows(r: Register, r': Register, today: int, session: Id, k: nat)
    requires k <= |r.bookings| == |r'.bookings|
  {
    && r'.entitlements.Keys == r.entitlements.Keys
    && (forall i: nat | i < k ::
          r'.bookings[i] == if NoShow(r, session, i) then r.bookings[i].(status := Cancelled) else r.bookings[i])
    && (forall e | e in r.entitlements ::
          r'.entitlements[e] == if NoShowOf(r, session, k, e) then Returned(r.entitlements[e], today)
            else r.entitlements[e])
  }

  ghost predicate NoShowsWritten(r: Register, r': Register, today: int, session: Id, k: nat) {
    NoShowsOut(r, r', session, k) && NoShowRows(r, r', today, session, k)
  }

  lemma NoShowOfNext(r: Register, session: Id, k: nat, e: Key)
    requires k < |r.bookings|
    ensures NoShowOf(r, session, k + 1, e) <==>
            NoShowOf(r, session, k, e) || (NoShow(r, session, k) && r.bookings[k].entitlement == e)
    ensures ShownOf(r, session, k + 1, e) <==>
            ShownOf(r, session, k, e) || (Shown(r, session, k) && r.bookings[k].entitlement == e)
  {
  }

  /** What one turn of the first loop does to its booking and to the entitlements. */
  ghost predicate TurnReturns(r: Register, r': Register, r'': Register, today: int, session: Id, k: nat)
    requires k < |r.bookings| == |r'.bookings|
  {
    var e := r.bookings[k].entitlement;
    && r'.bookings[k] == r.bookings[k]
    && r''.bookings
       == (if NoShow(r, session, k) then r'.bookings[k := r.bookings[k].(status := Cancelled)] else r'.bookings)
    && (NoShow(r, session, k) ==> e in r'.entitlements)
    && r''.entitlements
       == (if NoShow(r, session, k) then r'.entitlements[e := Returned(r'.entitlements[e], today)] else r'.entitlements)
  }

  lemma NoShowReturns(r: Register, r': Register, today: int, session: Id, k: nat)
    requires k < |r.bookings| && NoShowsOut(r, r', session, k)
    ensures TurnReturns(r, r', CancelNoShow(r', today, session, k), today, session, k)
  {
    assert r'.bookings[k] == r.bookings[k];
    if NoShow(r', session, k) {
      assert BookingOk(r', Some(session), k);
      assert RightOk(r', r.bookings[k].entitlement);
    }
  }

  lemma NoShowRowsNext(r: Register, r': Register, r'': Register, today: int, session: Id, k: nat)
    requires k < |r.bookings| == |r'.bookings| == |r''.bookings|
    requires NoShowRows(r, r', today, session, k) && TurnReturns(r, r', r'', today, session, k)
    ensures NoShowRows(r, r'', today, session, k + 1)
  {
    forall e | e in r.entitlements { NoShowOfNext(r, session, k, e); }
  }

  lemma NoShowTurn(r: Register, r': Register, r'': Register, today: int, session: Id, k: nat)
    requires 0 < k <= |r.bookings| && NoShowsWritten(r, r', today, session, k - 1)
    requires r'' == CancelNoShow(r', today, session, k - 1)
    ensures NoShowsWritten(r, r'', today, session, k)
  {
    NextNoShow(r, r', today, session, k - 1);
    NoShowReturns(r, r', today, session, k - 1);
    NoShowRowsNext(r, r', r'', today, session, k - 1);
  }

  lemma {:induction false} NoShowsAllWritten(r: Register, today: int, session: Id, k: nat)
    requires k <= |r.bookings| && Settling(r, Some(session))
    ensures NoShowsWritten(r, CancelNoShows(r, today, session, k), today, session, k)
  {
    if k == 0 {
      NoneWritten(r, today, session);
    } else {
      NoShowsAllWritten(r, today, session, k - 1);
      NoShowTurn(r, CancelNoShows(r, today, session, k - 1), CancelNoShows(r, today, session, k), today, session, k);
    }
  }

  lemma NoneWritten(r: Register, today: int, session: Id)
    requires Settling(r, Some(session))
    ensures NoShowsWritten(r, r, today, session, 0) && ShownWritten(r, r, session, 0)
  {}

  /** Bookings and entitlements after the second loop has been over the first k bookings. */
  ghost predicate ShownRows(r: Register, r': Register, session: Id, k: nat)
    requires k <= |r.bookings| == |r'.bookings|
  {
    && r'.entitlements.Keys == r.entitlements.Keys
    && (forall i: nat | i < k ::
          r'.bookings[i] == if Shown(r, session, i) then r.bookings[i].(status := Used) else r.bookings[i])
    && (forall e | e in r.entitlements ::
          r'.entitlements[e] == if ShownOf(r, session, k, e) then r.entitlements[e].(status := Consumed)
            else r.entitlements[e])
  }

  ghost predicate ShownWritten(r: Register, r': Register, session: Id, k: nat) {
    AttendedOut(r, r', session, k) && ShownRows(r, r', session, k)
  }

  ghost predicate TurnConsumes(r: Register, r': Register, r'': Register, session: Id, k: nat)
    requires k < |r.bookings| == |r'.bookings|
  {
    var e := r.bookings[k].entitlement;
    && r'.bookings[k] == r.bookings[k]
    && r''.bookings == (if Shown(r, session, k) then r'.bookings[k := r.bookings[k].(status := Used)] else r'.bookings)
    && (Shown(r, session, k) ==> e in r'.entitlements)
    && r''.entitlements
       == (if Shown(r, session, k) then r'.entitlements[e := r'.entitlements[e].(status := Consumed)]
           else r'.entitlements)
  }

  lemma ShownConsumes(r: Register, r': Register, session: Id, k: nat)
    requires k < |r.bookings| && AttendedOut(r, r', session, k)
    ensures TurnConsumes(r, r', UseBooking(r', session, k), session, k)
  {
    assert r'.bookings[k] == r.bookings[k];
    if Shown(r', session, k) { assert BookingOk(r', Some(session), k); }
  }

  lemma ShownRowsNext(r: Register, r': Register, r'': Register, session: Id, k: nat)
    requires k < |r.bookings| == |r'.bookings| == |r''.bookings|
    requires ShownRows(r, r', session, k) && TurnConsumes(r, r', r'', session, k)
    ensures ShownRows(r, r'', session, k + 1)
  {
    forall e | e in r.entitlements { NoShowOfNext(r, session, k, e); }
  }

  lemma ShownTurn(r: Register, r': Register, r'': Register, session: Id, k: nat)
    requires 0 < k <= |r.bookings| && ShownWritten(r, r', session, k - 1) && !NoShow(r, session, k - 1)
    requires r'' == UseBooking(r', session, k - 1)
    ensures ShownWritten(r, r'', session, k)
  {
    NextAttended(r, r', session, k - 1);
    ShownConsumes(r, r', session, k - 1);
    ShownRowsNext(r, r', r'', session, k - 1);
  }

  lemma {:induction false} ShownAllWritten(r: Register, session: Id, k: nat)
    requires k <= |r.bookings| && Settling(r, Some(session))
    requires forall i: nat | i < |r.bookings| :: !NoShow(r, session, i)
    ensures ShownWritten(r, UseAttended(r, session, k), session, k)
  {
    if k == 0 {
      NoneWritten(r, 0, session);
    } else {
      ShownAllWritten(r, session, k - 1);
      ShownTurn(r, UseAttended(r, session, k - 1), UseAttended(r, session, k), session, k);
    }
  }

  /** After the first loop, who has shown up is who had. */
  lemma ShownKept(r: Register, r': Register, today: int, session: Id, i: nat)
    requires NoShowsWritten(r, r', today, session, |r.bookings|) && i < |r.bookings|
    ensures !NoShow(r', session, i) && (Shown(r', session, i) <==> Shown(r, session, i))
  {
  }

  lemma ShownOfKept(r: Register, r': Register, today: int, session: Id, e: Key)
    requires NoShowsWritten(r, r', today, session, |r.bookings|)
    ensures ShownOf(r', session, |r.bookings|, e) <==> ShownOf(r, session, |r.bookings|, e)
  {
    forall i: nat | i < |r.bookings|
      ensures Shown(r', session, i) <==> Shown(r, session, i)
      ensures r'.bookings[i].entitlement == r.bookings[i].entitlement
    {
      ShownKept(r, r', today, session, i);
    }
  }

  /** No entitlement is both missed and attended: it has one booked booking. */
  lemma MissedOrShown(r: Register, session: Id, e: Key)
    requires OneActive(r.bookings)
    ensures !(NoShowOf(r, session, |r.bookings|, e) && ShownOf(r, session, |r.bookings|, e))
  {
  }

  /** The two loops together settle each booking of the session by its own record alone: attended
      means used and consumed, anything else cancelled and returned; nothing else is touched. */
  lemma ReconcileExactly(r: Register, today: int, session: Id)
    requires Settling(r, Some(session))
    ensures Reconcile(r, today, session) == Settled(r, today, session)
  {
    var n := |r.bookings|;
    var middle, end := CancelNoShows(r, today, session, n), Reconcile(r, today, session);
    NoShowsAllWritten(r, today, session, n);
    forall i: nat | i < n ensures !NoShow(middle, session, i) { ShownKept(r, middle, today, session, i); }
    ShownAllWritten(middle, session, n);
    forall i: nat | i < n ensures end.bookings[i] == SettledBooking(r, session, i)
    {
      ShownKept(r, middle, today, session, i);
    }
    forall e | e in r.entitlements ensures end.entitlements[e] == SettledRight(r, today, session, e) {
      ShownOfKept(r, middle, today, session, e);
      MissedOrShown(r, session, e);
    }
    assert end.bookings == Settled(r, today, session).bookings;
    assert end.entitlements == Settled(r, today, session).entitlements;
  }

  /** The entitlements granted with the lock: one for each earning record that had none. */
  lemma Granted(r: Register, env: Env, session: Id)
    requires session in r.sessions && forall k | k in r.records && k.0 == session :: k.0 in r.sessions
    ensures var granted := CreateEntitlements(Lock(r, session), env, session).entitlements;
            && granted.Keys == r.entitlements.Keys + EarnedKeys(r, env, session)
            && (forall e | e in r.entitlements :: granted[e] == r.entitlements[e])
            && (forall e | e in granted && e !in r.entitlements ::
                e in r.records && e.0 == session && granted[e] == NewRight(r, e))
  {
    assert EarnedKeys(Lock(r, session), env, session) == EarnedKeys(r, env, session);
  }

  /** No booking is for an entitlement yet to be granted, so settling leaves it as granted. */
  lemma NewRightKept(r: Register, granted: Register, today: int, session: Id, e: Key)
    requires BookingsOk(r, None) && granted.bookings == r.bookings && e !in r.entitlements && e in granted.entitlements
    ensures SettledRight(granted, today, session, e) == granted.entitlements[e]
  {
    forall i: nat | i < |r.bookings| ensures r.bookings[i].entitlement != e { assert BookingOk(r, None, i); }
  }

  lemma FinalizedIsSettled(r: Register, env: Env, session: Id)
    requires Sound(r) && Finalize(r, env, session).Done?
    ensures Finalize(r, env, session).register
            == Settled(CreateEntitlements(Lock(Initialize(r, env, session), session), env, session), env.today, session)
  {
    var ready := Initialize(r, env, session);
    InitializeSound(r, env, session);
    LockSettling(ready, session);
    NewRightsSettling(Lock(ready, session), env, Some(session), session);
    ReconcileExactly(CreateEntitlements(Lock(ready, session), env, session), env.today, session);
  }

  /** Finalizing writes, beside the locked sheet and the completed session, one AVAILABLE entitlement
      for each earning absence that had none, and settles the session's bookings. */
  lemma FinalizeExactly(r: Register, env: Env, session: Id)
    requires Sound(r) && Finalize(r, env, session).Done?
    ensures var ready, r' := Initialize(r, env, session), Finalize(r, env, session).register;
            && r'.sheets == ready.sheets[session := Locked] && r'.records == ready.records
            && r'.sessions == r.sessions[session := r.sessions[session].(status := Finished)]
            && |r'.bookings| == |r.bookings|
            && (forall i: nat | i < |r.bookings| :: r'.bookings[i] == SettledBooking(ready, session, i))
            && r'.entitlements.Keys == r.entitlements.Keys + EarnedKeys(ready, env, session)
            && (forall e | e in r'.entitlements && e !in r.entitlements ::
                  e in ready.records && e.0 == session && r'.entitlements[e] == NewRight(ready, e))
            && (forall e | e in r.entitlements :: r'.entitlements[e] == SettledRight(ready, env.today, session, e))
  {
    var ready := Initialize(r, env, session);
    InitializeOpens(r, env, session);
    var granted := CreateEntitlements(Lock(ready, session), env, session);
    Granted(ready, env, session);
    FinalizedIsSettled(r, env, session);
    forall i: nat | i < |r.bookings| ensures SettledBooking(granted, session, i) == SettledBooking(ready, session, i) {}
    forall e | e in granted.entitlements && e !in r.entitlements
      ensures SettledRight(granted, env.today, session, e) == granted.entitlements[e]
    {
      NewRightKept(r, granted, env.today, session, e);
    }
    forall e | e in r.entitlements
      ensures SettledRight(granted, env.today, session, e) == SettledRight(ready, env.today, session, e)
    {
      SameSettled(ready, granted, env.today, session, e);
    }
  }

  lemma SameSettled(r: Register, r': Register, today: int, session: Id, e: Key)
    requires r'.bookings == r.bookings && r'.records == r.records
    requires e in r.entitlements && e in r'.entitlements && r'.entitlements[e] == r.entitlements[e]
    ensures SettledRight(r', today, session, e) == SettledRight(r, today, session, e)
  {
    forall i: nat | i < |r.bookings|
      ensures NoShow(r', session, i) <==> NoShow(r, session, i)
      ensures Shown(r', session, i) <==> Shown(r, session, i)
    {
    }
  }

  // ---------- correction ----------

  /** Everything but the corrected record's own entitlement is in order. */
  ghost predicate Corrected(r: Register, key: Key) {
    && RecordsOk(r) && BookingsOk(r, None) && SheetsOk(r) && OneActive(r.bookings)
    && (forall e | e in r.entitlements && e != key :: RightOk(r, e))
  }

  lemma CorrectedRecord(r: Register, key: Key, mark: Mark)
    requires Sound(r) && key in r.records && key.0 in r.sheets && r.sheets[key.0] == Locked && mark != Unmarked
    requires r.records[key].source == Regular ==> mark != Makeup
    requires r.records[key].source == FromMakeup ==> MakeupMark(mark)
    ensures Corrected(r.(records := r.records[key := r.records[key].(mark := mark)]), key)
  {
    var r' := r.(records := r.records[key := r.records[key].(mark := mark)]);
    forall k | k in r'.records ensures RecordOk(r', k) { assert RecordOk(r, k); }
    forall b: nat | b < |r'.bookings| ensures BookingOk(r', None, b) { assert BookingOk(r, None, b); }
    forall e | e in r'.entitlements && e != key ensures RightOk(r', e) { assert RightOk(r, e); }
  }

  lemma RightSet(r: Register, key: Key, right: Entitlement)
    requires Corrected(r, key) && key in r.entitlements && right.expires == r.entitlements[key].expires
    requires RightOk(r.(entitlements := r.entitlements[key := right]), key)
    ensures Sound(r.(entitlements := r.entitlements[key := right]))
  {
    var r' := r.(entitlements := r.entitlements[key := right]);
    forall k | k in r'.records ensures RecordOk(r', k) { assert RecordOk(r, k); }
    forall b: nat | b < |r'.bookings| ensures BookingOk(r', None, b) { assert BookingOk(r, None, b); }
    forall e | e in r'.entitlements ensures RightOk(r', e) { if e != key { assert RightOk(r, e); } }
  }

  /** The corrected record's entitlement is revoked or revived to fit its new mark. */
  lemma FollowRight(r: Register, env: Env, key: Key, before: Mark)
    requires key in r.records && key.0 in r.sessions && key in r.entitlements
    requires RightOk(r.(records := r.records[key := r.records[key].(mark := before)]), key)
    requires Engaged(r, key) && before == AbsentExcused ==> r.records[key].mark == AbsentExcused
    ensures RightOk(FollowCorrection(r, env, key, before), key)
    ensures FollowCorrection(r, env, key, before)
            == r.(entitlements := r.entitlements[key := FollowCorrection(r, env, key, before).entitlements[key]])
  {
    assert r.entitlements[key := r.entitlements[key]] == r.entitlements;
  }

  lemma CorrectSound(r: Register, env: Env, key: Key, mark: Mark, reason: string)
    requires Sound(r) && Correct(r, env, key, mark, reason).Done?
    ensures Sound(Correct(r, env, key, mark, reason).register)
  {
    var was := r.records[key];
    var r1 := r.(records := r.records[key := was.(mark := mark)]);
    assert RecordOk(r, key);
    CorrectedRecord(r, key, mark);
    if key in r.entitlements {
      assert RightOk(r, key);
      assert r1.records[key := r1.records[key].(mark := was.mark)] == r.records;
      FollowRight(r1, env, key, was.mark);
      RightSet(r1, key, FollowCorrection(r1, env, key, was.mark).entitlements[key]);
    } else {
      assert Sound(r1);
      NewRightsSettling(r1, env, None, key.0);
    }
  }

  // ---------- booking ----------

  lemma BookSound(r: Register, env: Env, e: Key, destination: Id)
    requires Sound(r) && BookMakeup(r, env, e, destination).Done?
    ensures Sound(BookMakeup(r, env, e, destination).register)
  {
    var ready := Initialize(r, env, destination);
    InitializeSound(r, env, destination);
    SeatTaken(ready, env, e, destination);
  }

  /** The booking, its entitlement and its record are written together. */
  lemma SeatTaken(r: Register, env: Env, e: Key, destination: Id)
    requires Sound(r) && e in r.entitlements && r.entitlements[e].status == Available && destination in r.sessions
    requires r.sessions[destination].date <= r.entitlements[e].expires
    requires ClassOf(r, env, destination).Some? && SeatError(r, env, destination, e.1).None?
    ensures Sound(Seated(r, e, destination))
  {
    var b, r' := |r.bookings|, Seated(r, e, destination);
    assert RightOk(r, e);
    SeatedRecords(r, e, destination);
    forall i: nat | i < |r'.bookings| ensures BookingOk(r', None, i) {
      if i < b {
        assert BookingOk(r, None, i);
        if r.bookings[i].status == Booked { assert RecordOk(r, KeyOf(r.bookings[i])); }
      }
    }
    SeatedRights(r, e, destination);
  }

  lemma SeatedRights(r: Register, e: Key, destination: Id)
    requires Sound(r) && e in r.entitlements && r.entitlements[e].status == Available
    requires !Participates(r, destination, e.1) && destination in r.sheets && r.sheets[destination] == Open
    ensures RightsOk(Seated(r, e, destination))
  {
    var r' := Seated(r, e, destination);
    forall x | x in r'.entitlements ensures RightOk(r', x) {
      assert RightOk(r, x);
      BookingsGrow(r.bookings, Booking(e, destination, Booked), x);
    }
  }

  lemma SeatedRecords(r: Register, e: Key, destination: Id)
    requires RecordsOk(r) && e in r.entitlements && destination in r.sheets && r.sheets[destination] == Open
    requires !Participates(r, destination, e.1)
    ensures RecordsOk(Seated(r, e, destination))
    ensures Seated(r, e, destination).records[(destination, e.1)].booking == Some(|r.bookings|)
  {
    var r' := Seated(r, e, destination);
    forall k | k in r'.records ensures RecordOk(r', k) { if k in r.records { assert RecordOk(r, k); } }
  }

  lemma BookingsGrow(bookings: seq<Booking>, b: Booking, e: Key)
    requires b.status == Booked
    ensures ActiveFor(bookings + [b], e) <==> ActiveFor(bookings, e) || e == b.entitlement
    ensures UsedFor(bookings + [b], e) <==> UsedFor(bookings, e)
  {
    assert (bookings + [b])[|bookings|] == b;
    if ActiveFor(bookings, e) {
      var i :| 0 <= i < |bookings| && bookings[i].status == Booked && bookings[i].entitlement == e;
      assert (bookings + [b])[i] == bookings[i];
    }
    if UsedFor(bookings, e) {
      var i :| 0 <= i < |bookings| && bookings[i].status == Used && bookings[i].entitlement == e;
      assert (bookings + [b])[i] == bookings[i];
    }
  }

  /** The one record a booking has. */
  lemma OneRecord(r: Register, b: nat, k: Key)
    requires RecordsOk(r) && b < |r.bookings| && k in r.records && r.records[k].booking == Some(b)
    ensures k == KeyOf(r.bookings[b]) && r.records[k].source == FromMakeup
  {
    assert RecordOk(r, k);
  }

  lemma CancelSound(r: Register, env: Env, b: nat)
    requires Sound(r) && CancelMakeup(r, env, b).Done?
    ensures Sound(CancelMakeup(r, env, b).register)
  {
    var e := r.bookings[b].entitlement;
    assert BookingOk(r, None, b);
    BookingEnds(r, None, b, Cancelled, Returned(r.entitlements[e], env.today));
    var returned := r.entitlements[e := Returned(r.entitlements[e], env.today)];
    ReleasedSound(EndBooking(r, b, Cancelled).(entitlements := returned), b, OpenSheets(r.sheets));
  }

  /** A cancelled booking's records on open sheets are restored or removed. */
  lemma ReleasedSound(r: Register, b: nat, sessions: set<Id>)
    requires Sound(r) && b < |r.bookings| && r.bookings[b].status != Booked
    requires forall s | s in sessions :: s in r.sheets && r.sheets[s] == Open
    ensures Sound(r.(records := Released(r.records, b, sessions)))
  {
    var r' := r.(records := Released(r.records, b, sessions));
    forall k | k in r'.records ensures RecordOk(r', k) { assert RecordOk(r, k); }
    forall i: nat | i < |r'.bookings| ensures BookingOk(r', None, i) { assert BookingOk(r, None, i); }
    forall e | e in r'.entitlements ensures RightOk(r', e) { assert RightOk(r, e); assert RecordOk(r, e); }
  }

  lemma RebookSound(r: Register, env: Env, b: nat, destination: Id)
    requires Sound(r) && RebookMakeup(r, env, b, destination).Done?
    ensures Sound(RebookMakeup(r, env, b, destination).register)
  {
    var ready := Initialize(r, env, destination);
    InitializeSound(r, env, destination);
    SeatMoved(ready, env, b, destination);
  }

  lemma ActiveMoved(bookings: seq<Booking>, b: nat, destination: Id, e: Key)
    requires b < |bookings|
    ensures var bookings' := bookings[b := bookings[b].(destination := destination)];
            && (ActiveFor(bookings', e) <==> ActiveFor(bookings, e))
               && (UsedFor(bookings', e) <==> UsedFor(bookings, e))
  {
    var bookings' := bookings[b := bookings[b].(destination := destination)];
    assert forall i | 0 <= i < |bookings| ::
      bookings'[i].status == bookings[i].status && bookings'[i].entitlement == bookings[i].entitlement;
    if ActiveFor(bookings, e) {
      var i :| 0 <= i < |bookings| && bookings[i].status == Booked && bookings[i].entitlement == e;
      assert bookings'[i].status == Booked && bookings'[i].entitlement == e;
    }
    if UsedFor(bookings, e) {
      var i :| 0 <= i < |bookings| && bookings[i].status == Used && bookings[i].entitlement == e;
      assert bookings'[i].status == Used && bookings'[i].entitlement == e;
    }
  }

  /** The booking leaves one open session's sheet and takes its seat on another's. */
  lemma SeatMoved(r: Register, env: Env, b: nat, destination: Id)
    requires Sound(r) && b < |r.bookings| && r.bookings[b].status == Booked && r.bookings[b].destination != destination
    requires destination in r.sessions && ClassOf(r, env, destination).Some?
    requires r.bookings[b].entitlement in r.entitlements
             && r.sessions[destination].date <= r.entitlements[r.bookings[b].entitlement].expires
    requires SeatError(r, env, destination, r.bookings[b].entitlement.1).None?
    ensures Sound(Shifted(r, b, destination))
  {
    var e, current := r.bookings[b].entitlement, r.bookings[b].destination;
    var r', key := Shifted(r, b, destination), (destination, e.1);
    assert BookingOk(r, None, b);
    MovedRecords(r, b, destination);
    forall i: nat | i < |r'.bookings| ensures BookingOk(r', None, i) {
      assert BookingOk(r, None, i);
      if i != b && r.bookings[i].status == Booked { assert RecordOk(r, KeyOf(r.bookings[i])); }
    }
    forall x | x in r'.entitlements ensures RightOk(r', x) {
      assert RightOk(r, x) && RecordOk(r, x);
      ActiveMoved(r.bookings, b, destination, x);
    }
  }

  lemma MovedRecords(r: Register, b: nat, destination: Id)
    requires Sound(r) && b < |r.bookings| && r.bookings[b].status == Booked && r.bookings[b].destination != destination
    requires destination in r.sheets && r.sheets[destination] == Open
    requires !Participates(r, destination, r.bookings[b].entitlement.1)
    ensures RecordsOk(Shifted(r, b, destination))
    ensures var r', key := Shifted(r, b, destination), (destination, r.bookings[b].entitlement.1);
            key in r'.records && r'.records[key].booking == Some(b)
  {
    var r', key := Shifted(r, b, destination), (destination, r.bookings[b].entitlement.1);
    assert BookingOk(r, None, b);
    forall k | k in r'.records ensures RecordOk(r', k) {
      if k in r.records {
        assert RecordOk(r, k);
        if r.records[k].booking == Some(b) { OneRecord(r, b, k); }
      }
    }
    if key in r.records { assert RecordOk(r, key); }
  }

  /** What a booking leaves: itself, its entitlement booked, and one more makeup record or the
      student's roster record turned into one; every other row is as initializing left it. */
  lemma BookWrites(r: Register, env: Env, e: Key, destination: Id)
    requires Sound(r) && BookMakeup(r, env, e, destination).Done?
    ensures var ready, r', key := Initialize(r, env, destination), BookMakeup(r, env, e, destination).register,
            (destination, e.1);
            && r'.sessions == r.sessions && r'.sheets == ready.sheets
            && r'.bookings == r.bookings + [Booking(e, destination, Booked)]
            && r'.entitlements == r.entitlements[e := r.entitlements[e].(status := Reserved)]
            && r'.records.Keys == ready.records.Keys + {key}
            && (forall k | k in ready.records && k != key :: r'.records[k] == ready.records[k])
            && r'.records[key].source == FromMakeup && r'.records[key].booking == Some(|r.bookings|)
            && r'.records[key].enrollment == (if key in ready.records then ready.records[key].enrollment else None)
            && r'.records[key].mark == (if key in ready.records then Makeup else Unmarked)
  {
    InitializeOpens(r, env, destination);
  }

  /** What a rebooking leaves: the booking moved, the old session without its record or with the
      roster record it had been placed on, the new session with its makeup record. */
  lemma RebookWrites(r: Register, env: Env, b: nat, destination: Id)
    requires Sound(r) && RebookMakeup(r, env, b, destination).Done?
    ensures var ready, r' := Initialize(r, env, destination), RebookMakeup(r, env, b, destination).register;
            var left, key := KeyOf(r.bookings[b]), (destination, r.bookings[b].entitlement.1);
            && r'.sessions == r.sessions && r'.sheets == ready.sheets && r'.entitlements == r.entitlements
            && r'.bookings == r.bookings[b := r.bookings[b].(destination := destination)]
            && left in ready.records
            && (left in r'.records <==> ready.records[left].enrollment.Some?)
            && (left in r'.records ==>
                  r'.records[left] == Record(ready.records[left].enrollment, Regular, None, Unmarked))
            && (forall k | k != left && k != key ::
                  (k in r'.records <==> k in ready.records) && (k in r'.records ==> r'.records[k] == ready.records[k]))
            && key in r'.records && r'.records[key].source == FromMakeup && r'.records[key].booking == Some(b)
            && r'.records[key].mark == Makeup
  {
    InitializeSound(r, env, destination);
    ShiftedWrites(Initialize(r, env, destination), b, destination);
  }

  lemma ShiftedWrites(r: Register, b: nat, destination: Id)
    requires RecordsOk(r) && BookingsOk(r, None) && b < |r.bookings| && r.bookings[b].status == Booked
    requires r.bookings[b].destination != destination && !Participates(r, destination, r.bookings[b].entitlement.1)
    ensures var left, key, records := KeyOf(r.bookings[b]), (destination, r.bookings[b].entitlement.1),
            Shifted(r, b, destination).records;
            && left in r.records
            && (left in records <==> r.records[left].enrollment.Some?)
            && (left in records ==> records[left] == Record(r.records[left].enrollment, Regular, None, Unmarked))
            && (forall k | k != left && k != key ::
                (k in records <==> k in r.records) && (k in records ==> records[k] == r.records[k]))
            && key in records && records[key].source == FromMakeup && records[key].booking == Some(b)
               && records[key].mark == Makeup
  {
    assert BookingOk(r, None, b);
    forall k | k in r.records && r.records[k].booking == Some(b) ensures k == KeyOf(r.bookings[b])
    {
      OneRecord(r, b, k);
    }
  }

  // ---------- every command, every run ----------

  lemma StepSound(r: Register, env: Env, c: Command)
    requires Sound(r)
    ensures Sound(Step(r, env, c))
  {
    if Try(r, env, c).Done? {
      match c
      case AddSession(id, class_, date) => AddedSound(r, id, class_, date);
      case CreateSession(id, class_, date) =>
        AddedSound(r, id, class_, date);
        InitializeSound(Added(r, id, class_, date), env, id);
      case InitializeSession(session) => InitializeSound(r, env, session);
      case MarkRecord(key, mark) => UpdateSound(r, key, mark);
      case FinalizeSession(session) => FinalizeSound(r, env, session);
      case CorrectRecord(key, mark, reason) => CorrectSound(r, env, key, mark, reason);
      case Book(e, destination) => BookSound(r, env, e, destination);
      case Rebook(b, destination) => RebookSound(r, env, b, destination);
      case Cancel(b) => CancelSound(r, env, b);
    }
  }

  datatype Call = Call(env: Env, command: Command)

  function Run(calls: seq<Call>): Register {
    if |calls| == 0 then Register(map[], map[], map[], map[], [])
    else Step(Run(calls[..|calls| - 1]), calls[|calls| - 1].env, calls[|calls| - 1].command)
  }

  lemma {:induction false} RunSound(calls: seq<Call>)
    ensures Sound(Run(calls))
  {
    if |calls| != 0 {
      RunSound(calls[..|calls| - 1]);
      StepSound(Run(calls[..|calls| - 1]), calls[|calls| - 1].env, calls[|calls| - 1].command);
    }
  }

  // ---------- the lives of entitlements and bookings ----------

  predicate RightMoves(from: RightStatus, to: RightStatus) {
    match from
    case Available => to == Reserved || to == Revoked
    case Reserved => to == Available || to == Expired || to == Consumed
    case Revoked => to == Available || to == Expired
    case Consumed => false
    case Expired => false
  }

  /** An entitlement keeps its terms; it becomes available or booked only up to its expiry, expired
      only after it. */
  predicate RightLives(before: Entitlement, after: Entitlement, today: int) {
    && after == before.(status := after.status)
    && (after != before ==>
          && RightMoves(before.status, after.status)
          && (after.status == Available || after.status == Reserved ==> today <= after.expires)
          && (after.status == Expired ==> today > after.expires))
  }

  /** A booking keeps its entitlement, and everything once it is not booked any more. */
  predicate BookingLives(before: Booking, after: Booking) {
    after.entitlement == before.entitlement && (before.status != Booked ==> after == before)
  }

  ghost predicate Lives(r: Register, r': Register, today: int) {
    && (forall e | e in r.entitlements ::
        e in r'.entitlements && RightLives(r.entitlements[e], r'.entitlements[e], today))
    && |r.bookings| <= |r'.bookings|
    && (forall i: nat | i < |r.bookings| :: BookingLives(r.bookings[i], r'.bookings[i]))
  }

  lemma FinalizeLives(r: Register, env: Env, session: Id)
    requires Sound(r) && Finalize(r, env, session).Done?
    ensures Lives(r, Finalize(r, env, session).register, env.today)
  {
    var ready, r' := Initialize(r, env, session), Finalize(r, env, session).register;
    FinalizeExactly(r, env, session);
    InitializeSound(r, env, session);
    forall i: nat | i < |r.bookings| ensures BookingLives(r.bookings[i], r'.bookings[i]) {
      assert r'.bookings[i] == SettledBooking(ready, session, i);
    }
    forall e | e in r.entitlements ensures RightLives(r.entitlements[e], r'.entitlements[e], env.today) {
      SettledLives(ready, env.today, session, e);
    }
  }

  /** A settled entitlement was booked. */
  lemma SettledLives(r: Register, today: int, session: Id, e: Key)
    requires RightsOk(r) && e in r.entitlements
    ensures RightLives(r.entitlements[e], SettledRight(r, today, session, e), today)
  {
    assert RightOk(r, e);
    if NoShowOf(r, session, |r.bookings|, e) || ShownOf(r, session, |r.bookings|, e) {
      assert ActiveFor(r.bookings, e);
    }
  }

  lemma CorrectLives(r: Register, env: Env, key: Key, mark: Mark, reason: string)
    requires Sound(r) && Correct(r, env, key, mark, reason).Done?
    ensures Lives(r, Correct(r, env, key, mark, reason).register, env.today)
  {
    FollowLives(r.(records := r.records[key := r.records[key].(mark := mark)]), env, key, r.records[key].mark);
  }

  lemma FollowLives(r: Register, env: Env, key: Key, before: Mark)
    requires key in r.records && key.0 in r.sessions
    ensures Lives(r, FollowCorrection(r, env, key, before), env.today)
  {
  }

  lemma QuietLives(r: Register, r': Register, today: int)
    requires r'.entitlements == r.entitlements && r'.bookings == r.bookings
    ensures Lives(r, r', today)
  {}

  lemma BookLives(r: Register, env: Env, e: Key, destination: Id)
    requires Sound(r) && BookMakeup(r, env, e, destination).Done?
    ensures Lives(r, BookMakeup(r, env, e, destination).register, env.today)
  {
    SeatedLives(Initialize(r, env, destination), e, destination, env.today);
  }

  lemma SeatedLives(r: Register, e: Key, destination: Id, today: int)
    requires e in r.entitlements && r.entitlements[e].status == Available && today <= r.entitlements[e].expires
    ensures Lives(r, Seated(r, e, destination), today)
  {}

  lemma RebookLives(r: Register, env: Env, b: nat, destination: Id)
    requires Sound(r) && RebookMakeup(r, env, b, destination).Done?
    ensures Lives(r, RebookMakeup(r, env, b, destination).register, env.today)
  {
    RebookWrites(r, env, b, destination);
  }

  lemma CancelLives(r: Register, env: Env, b: nat)
    requires Sound(r) && CancelMakeup(r, env, b).Done?
    ensures Lives(r, CancelMakeup(r, env, b).register, env.today)
  {
    assert BookingOk(r, None, b);
    assert RightOk(r, r.bookings[b].entitlement);
  }

  /** Over every command: an existing entitlement moves only along its life, on the right side of its expiry,
      and never out of USED or EXPIRED; an ended booking never changes. */
  lemma StepLives(r: Register, env: Env, c: Command)
    requires Sound(r)
    ensures Lives(r, Step(r, env, c), env.today)
  {
    if Try(r, env, c).Done? {
      match c
      case FinalizeSession(session) => FinalizeLives(r, env, session);
      case CorrectRecord(key, mark, reason) => CorrectLives(r, env, key, mark, reason);
      case Book(e, destination) => BookLives(r, env, e, destination);
      case Rebook(b, destination) => RebookLives(r, env, b, destination);
      case Cancel(b) => CancelLives(r, env, b);
      case _ => QuietLives(r, Step(r, env, c), env.today);
    } else {
      QuietLives(r, r, env.today);
    }
  }

  predicate Spent(e: Entitlement) {
    e.status == Consumed || e.status == Expired
  }

  ghost predicate SpentKept(r: Register, r': Register) {
    && (forall e | e in r.entitlements ::
          e in r'.entitlements && (Spent(r.entitlements[e]) ==> r'.entitlements[e] == r.entitlements[e]))
    && |r.bookings| <= |r'.bookings|
    && (forall i: nat | i < |r.bookings| && r.bookings[i].status != Booked :: r'.bookings[i] == r.bookings[i])
  }

  lemma SpentKeptTransitive(a: Register, b: Register, c: Register)
    requires SpentKept(a, b) && SpentKept(b, c)
    ensures SpentKept(a, c)
  {
    forall i: nat | i < |a.bookings| && a.bookings[i].status != Booked ensures c.bookings[i] == a.bookings[i] {
      assert b.bookings[i] == a.bookings[i];
    }
  }

  lemma NextSpentKept(r: Register, env: Env, c: Command)
    requires Sound(r)
    ensures SpentKept(r, Step(r, env, c))
  {
    StepLives(r, env, c);
    var r' := Step(r, env, c);
    forall i: nat | i < |r.bookings| && r.bookings[i].status != Booked ensures r'.bookings[i] == r.bookings[i] {
      assert BookingLives(r.bookings[i], r'.bookings[i]);
    }
  }

  /** From any moment of a run on, a used or expired entitlement and a used or cancelled booking
      stay exactly as they are: no right is spent twice, none comes back. */
  lemma {:induction false} SpentForever(calls: seq<Call>, k: nat, m: nat)
    requires k <= m <= |calls|
    ensures SpentKept(Run(calls[..k]), Run(calls[..m]))
  {
    if k < m {
      SpentForever(calls, k, m - 1);
      RunSound(calls[..m - 1]);
      assert calls[..m][..m - 1] == calls[..m - 1];
      NextSpentKept(Run(calls[..m - 1]), calls[m - 1].env, calls[m - 1].command);
      SpentKeptTransitive(Run(calls[..k]), Run(calls[..m - 1]), Run(calls[..m]));
    }
  }

  // ---------- what the invariant says to a reader ----------

  /** In every reachable state an entitlement is BOOKED if and only if it has a booked booking, then
      exactly one, and USED if and only if it has a used one; a live entitlement's absence is an
      excused regular record of a locked sheet, and it expires thirty days after that session. */
  lemma EntitlementsTold(calls: seq<Call>, e: Key)
    requires e in Run(calls).entitlements
    ensures var r := Run(calls);
            && (r.entitlements[e].status == Reserved
                <==> exists i | 0 <= i < |r.bookings| ::
                  r.bookings[i].status == Booked && r.bookings[i].entitlement == e)
            && (forall i, j | 0 <= i < |r.bookings| && 0 <= j < |r.bookings|
                && r.bookings[i].status == Booked == r.bookings[j].status
                              && r.bookings[i].entitlement == e == r.bookings[j].entitlement :: i == j)
            && (r.entitlements[e].status == Consumed
                <==> exists i | 0 <= i < |r.bookings| :: r.bookings[i].status == Used && r.bookings[i].entitlement == e)
            && (Live(r.entitlements[e]) ==>
                  e in r.records && r.records[e].source == Regular && r.records[e].mark == AbsentExcused
                  && e.0 in r.sheets && r.sheets[e.0] == Locked)
            && e.0 in r.sessions && r.entitlements[e].expires == r.sessions[e.0].date + EXPIRATION_DAYS
  {
    RunSound(calls);
    assert RightOk(Run(calls), e);
  }

  /** In every reachable state a booked booking has an open destination sheet, in a session no later
      than its entitlement's expiry, and exactly one record carries its id: the one of its student
      there, a makeup's. */
  lemma BookingsTold(calls: seq<Call>, b: nat)
    requires b < |Run(calls).bookings| && Run(calls).bookings[b].status == Booked
    ensures var r := Run(calls);
            var key := KeyOf(r.bookings[b]);
            && key.0 in r.sheets && r.sheets[key.0] == Open
            && key in r.records && r.records[key].source == FromMakeup
            && key.0 in r.sessions && r.bookings[b].entitlement in r.entitlements
            && r.sessions[key.0].date <= r.entitlements[r.bookings[b].entitlement].expires
            && (forall k | k in r.records :: r.records[k].booking == Some(b) <==> k == key)
  {
    RunSound(calls);
    var r := Run(calls);
    assert BookingOk(r, None, b);
    assert RecordOk(r, KeyOf(r.bookings[b]));
    forall k | k in r.records && r.records[k].booking == Some(b) ensures k == KeyOf(r.bookings[b])
    {
      OneRecord(r, b, k);
    }
  }

  /** In every reachable state a locked sheet has no unmarked record, and no booked booking is for it. */
  lemma LockedTold(calls: seq<Call>, session: Id)
    requires session in Run(calls).sheets && Run(calls).sheets[session] == Locked
    ensures var r := Run(calls);
            && (forall k | k in r.records && k.0 == session :: r.records[k].mark != Unmarked)
            && (forall i | 0 <= i < |r.bookings| :: !Targets(r.bookings[i], session))
  {
    RunSound(calls);
    var r := Run(calls);
    forall k | k in r.records && k.0 == session ensures r.records[k].mark != Unmarked { assert RecordOk(r, k); }
    forall i: nat | i < |r.bookings| ensures !Targets(r.bookings[i], session) { assert BookingOk(r, None, i); }
  }

  ghost predicate KeepsLocked(sheets: map<Id, SheetStatus>, sheets': map<Id, SheetStatus>) {
    forall s | s in sheets && sheets[s] == Locked :: s in sheets' && sheets'[s] == Locked
  }

  lemma OpeningKeepsLocked(r: Register, env: Env, session: Id)
    requires Sound(r) && session in r.sessions
    ensures KeepsLocked(r.sheets, Initialize(r, env, session).sheets)
  {
    InitializeOpens(r, env, session);
  }

  lemma FinalizeKeepsLocked(r: Register, env: Env, session: Id)
    requires Sound(r) && Finalize(r, env, session).Done?
    ensures KeepsLocked(r.sheets, Finalize(r, env, session).register.sheets)
  {
    OpeningKeepsLocked(r, env, session);
    FinalizeExactly(r, env, session);
  }

  lemma BookKeepsLocked(r: Register, env: Env, e: Key, destination: Id)
    requires Sound(r) && BookMakeup(r, env, e, destination).Done?
    ensures KeepsLocked(r.sheets, BookMakeup(r, env, e, destination).register.sheets)
  {
    OpeningKeepsLocked(r, env, destination);
    BookWrites(r, env, e, destination);
  }

  lemma RebookKeepsLocked(r: Register, env: Env, b: nat, destination: Id)
    requires Sound(r) && RebookMakeup(r, env, b, destination).Done?
    ensures KeepsLocked(r.sheets, RebookMakeup(r, env, b, destination).register.sheets)
  {
    OpeningKeepsLocked(r, env, destination);
    RebookWrites(r, env, b, destination);
  }

  lemma StepKeepsLocked(r: Register, env: Env, c: Command)
    requires Sound(r)
    ensures KeepsLocked(r.sheets, Step(r, env, c).sheets)
  {
    if Try(r, env, c).Done? {
      match c
      case FinalizeSession(session) => FinalizeKeepsLocked(r, env, session);
      case Book(e, destination) => BookKeepsLocked(r, env, e, destination);
      case Rebook(b, destination) => RebookKeepsLocked(r, env, b, destination);
      case CreateSession(id, class_, date) =>
        AddedSound(r, id, class_, date);
        OpeningKeepsLocked(Added(r, id, class_, date), env, id);
      case InitializeSession(session) => OpeningKeepsLocked(r, env, session);
      case _ =>
    }
  }

  lemma NextKeepsLocked(calls: seq<Call>, m: nat, session: Id)
    requires m < |calls| && session in Run(calls[..m]).sheets && Run(calls[..m]).sheets[session] == Locked
    ensures session in Run(calls[..m + 1]).sheets && Run(calls[..m + 1]).sheets[session] == Locked
  {
    RunSound(calls[..m]);
    assert calls[..m + 1][..m] == calls[..m];
    StepKeepsLocked(Run(calls[..m]), calls[m].env, calls[m].command);
  }

  lemma {:induction false} LockedStays(calls: seq<Call>, k: nat, m: nat, session: Id)
    requires k <= m <= |calls|
    requires session in Run(calls[..k]).sheets && Run(calls[..k]).sheets[session] == Locked
    ensures session in Run(calls[..m]).sheets && Run(calls[..m]).sheets[session] == Locked
  {
    if k < m {
      LockedStays(calls, k, m - 1, session);
      NextKeepsLocked(calls, m - 1, session);
    }
  }

  /** Never again: once a sheet is locked, at every later moment of the run it is locked, without an
      unmarked record and without a booked booking for its session. */
  lemma LockedForever(calls: seq<Call>, k: nat, m: nat, session: Id)
    requires k <= m <= |calls|
    requires session in Run(calls[..k]).sheets && Run(calls[..k]).sheets[session] == Locked
    ensures var r := Run(calls[..m]);
            && session in r.sheets && r.sheets[session] == Locked
            && (forall k | k in r.records && k.0 == session :: r.records[k].mark != Unmarked)
            && (forall i | 0 <= i < |r.bookings| :: !Targets(r.bookings[i], session))
  {
    LockedStays(calls, k, m, session);
    LockedTold(calls[..m], session);
  }

  /** Booking after the expiry is refused and leaves everything, the entitlement too, as it was. */
  lemma ExpiredNeverBooked(r: Register, env: Env, e: Key, destination: Id)
    requires e in r.entitlements && env.today > r.entitlements[e].expires
    ensures BookMakeup(r, env, e, destination).Refused? && Step(r, env, Book(e, destination)) == r
  {}

  // ---------- capacity ----------

  lemma {:induction false} SubsetSmaller(a: set<Id>, b: set<Id>)
    requires a <= b
    ensures |a| <= |b|
  {
    if x :| x in a { SubsetSmaller(a - {x}, b - {x}); }
  }

  lemma SeatCount(before: set<Id>, after: set<Id>, student: Id, capacity: nat)
    requires after - {student} <= before - {student} && |before - {student}| < capacity
    ensures |after| <= capacity
  {
    SubsetSmaller(after - {student}, before - {student});
    if student in after { assert after == after - {student} + {student}; } else { assert after - {student} == after; }
  }

  ghost predicate Within(r: Register, env: Env, session: Id) {
    var c := ClassOf(r, env, session);
    c.Some? && (c.value.capacity.Some? ==> |Occupants(r, session)| <= c.value.capacity.value)
  }

  predicate Occupies(r: Register, session: Id, student: Id) {
    (session, student) in r.records || ActiveAt(r.bookings, student, session)
  }

  lemma OccupantsAre(r: Register, session: Id)
    ensures forall x :: x in Occupants(r, session) <==> Occupies(r, session, x)
  {
    forall x ensures x in Occupants(r, session) <==> Occupies(r, session, x) {
      if (session, x) in r.records { assert x in set k | k in r.records && k.0 == session :: k.1; }
    }
  }

  /** If only the seated student's participation changed, the others' seats did not. */
  lemma SeatedWithin(before: Register, after: Register, env: Env, session: Id, student: Id)
    requires ClassOf(before, env, session).Some? && ClassOf(after, env, session) == ClassOf(before, env, session)
    requires !FullFor(before, env, session, student)
    requires forall x | x != student && Occupies(after, session, x) :: Occupies(before, session, x)
    ensures Within(after, env, session)
  {
    OccupantsAre(before, session);
    OccupantsAre(after, session);
    var capacity := ClassOf(before, env, session).value.capacity;
    if capacity.Some? {
      forall x | x in Occupants(after, session) - {student} ensures x in Occupants(before, session) - {student} {}
      SeatCount(Occupants(before, session), Occupants(after, session), student, capacity.value);
    }
  }

  lemma ActiveSnoc(bookings: seq<Booking>, b: Booking, student: Id, session: Id)
    requires b.entitlement.1 != student && ActiveAt(bookings + [b], student, session)
    ensures ActiveAt(bookings, student, session)
  {
    var i :| 0 <= i < |bookings + [b]| && Targets((bookings + [b])[i], session)
      && (bookings + [b])[i].entitlement.1 == student;
    assert bookings[i] == (bookings + [b])[i];
  }

  /** After a booking the destination's distinct occupants are within its class's capacity. */
  lemma BookWithin(r: Register, env: Env, e: Key, destination: Id)
    requires Sound(r) && BookMakeup(r, env, e, destination).Done?
    ensures Within(BookMakeup(r, env, e, destination).register, env, destination)
  {
    var ready, r' := Initialize(r, env, destination), BookMakeup(r, env, e, destination).register;
    InitializeOpens(r, env, destination);
    forall x: Id | x != e.1 && Occupies(r', destination, x) ensures Occupies(ready, destination, x) {
      if (destination, x) !in r'.records {
        ActiveSnoc(ready.bookings, Booking(e, destination, Booked), x, destination);
      }
    }
    SeatedWithin(ready, r', env, destination, e.1);
  }

  lemma ActiveElsewhere(bookings: seq<Booking>, b: nat, destination: Id, student: Id)
    requires b < |bookings| && bookings[b].entitlement.1 != student
    requires ActiveAt(bookings[b := bookings[b].(destination := destination)], student, destination)
    ensures ActiveAt(bookings, student, destination)
  {
    var moved := bookings[b := bookings[b].(destination := destination)];
    var i :| 0 <= i < |moved| && Targets(moved[i], destination) && moved[i].entitlement.1 == student;
    assert bookings[i] == moved[i];
  }

  /** So they are after a rebooking. */
  lemma RebookWithin(r: Register, env: Env, b: nat, destination: Id)
    requires Sound(r) && RebookMakeup(r, env, b, destination).Done?
    ensures Within(RebookMakeup(r, env, b, destination).register, env, destination)
  {
    var ready, r' := Initialize(r, env, destination), RebookMakeup(r, env, b, destination).register;
    var student := r.bookings[b].entitlement.1;
    InitializeOpens(r, env, destination);
    forall x: Id | x != student && Occupies(r', destination, x) ensures Occupies(ready, destination, x) {
      if (destination, x) !in r'.records { ActiveElsewhere(ready.bookings, b, destination, x); }
    }
    SeatedWithin(ready, r', env, destination, student);
  }

  /** Under the invariant the unique indexes on active bookings never refuse one: the checks before
      them already did. */
  lemma IndexesNeverRefuse(r: Register, env: Env, e: Key, destination: Id)
    requires Sound(r) && e in r.entitlements && ClassOf(r, env, destination).Some?
    requires SeatError(r, env, destination, e.1).None?
    ensures !ActiveAt(r.bookings, e.1, destination)
    ensures r.entitlements[e].status == Available ==> !ActiveFor(r.bookings, e)
  {
    assert RightOk(r, e);
    forall i: nat | i < |r.bookings| && Targets(r.bookings[i], destination) ensures r.bookings[i].entitlement.1 != e.1 {
      assert BookingOk(r, None, i);
      assert RecordOk(r, KeyOf(r.bookings[i]));
    }
  }

  /** Releasing a booking's record restores the one it was placed on, or removes the one it made. */
  lemma ReleaseUndoesPlace(records: map<Key, Record>, key: Key, b: nat, first: Mark, sessions: set<Id>)
    requires forall k | k in records :: records[k].booking != Some(b)
    requires key.0 in sessions
    requires key in records ==> records[key].booking.None? && records[key].enrollment.Some?
    ensures Released(Place(records, key, b, first), b, sessions) == records
  {
    var placed := Place(records, key, b, first);
    forall k | k in placed && placed[k].booking == Some(b) ensures k == key {}
  }

  lemma PlacedReleased(r: Register, env: Env, e: Key, destination: Id)
    requires Sound(r) && ClassOf(r, env, destination).Some? && SeatError(r, env, destination, e.1).None?
    ensures Released(Place(r.records, (destination, e.1), |r.bookings|, Unmarked), |r.bookings|, OpenSheets(r.sheets))
            == r.records
  {
    var key := (destination, e.1);
    forall k | k in r.records ensures r.records[k].booking != Some(|r.bookings|) { assert RecordOk(r, k); }
    if key in r.records { assert RecordOk(r, key); }
    ReleaseUndoesPlace(r.records, key, |r.bookings|, Unmarked, OpenSheets(r.sheets));
  }

  lemma CancelUndoesSeat(r: Register, env: Env, e: Key, destination: Id, later: Env)
    requires Sound(r) && ClassOf(r, env, destination).Some? && SeatError(r, env, destination, e.1).None?
    requires e in r.entitlements
    ensures CancelMakeup(Seated(r, e, destination), later, |r.bookings|)
            == Done(r.(bookings := r.bookings + [Booking(e, destination, Cancelled)],
                       entitlements := r.entitlements[e := Returned(r.entitlements[e], later.today)]))
  {
    PlacedReleased(r, env, e, destination);
    var seated := Seated(r, e, destination);
    assert seated.bookings[|r.bookings| := Booking(e, destination, Cancelled)]
           == r.bookings + [Booking(e, destination, Cancelled)];
    assert seated.entitlements[e := Returned(seated.entitlements[e], later.today)]
        == r.entitlements[e := Returned(r.entitlements[e], later.today)];
  }

  /** Cancelling undoes booking: but for the cancelled booking itself, everything is as the
      initialized destination left it, and the entitlement available again or, meanwhile, expired. */
  lemma CancelUndoesBook(r: Register, env: Env, e: Key, destination: Id, later: Env)
    requires Sound(r) && BookMakeup(r, env, e, destination).Done?
    ensures var ready := Initialize(r, env, destination);
            CancelMakeup(BookMakeup(r, env, e, destination).register, later, |r.bookings|)
            == Done(ready.(bookings := r.bookings + [Booking(e, destination, Cancelled)],
                           entitlements := r.entitlements[e := Returned(r.entitlements[e], later.today)]))
  {
    InitializeSound(r, env, destination);
    CancelUndoesSeat(Initialize(r, env, destination), env, e, destination, later);
  }
}

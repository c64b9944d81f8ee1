/** Attendance sheets and records, makeup entitlements and makeup bookings. */
module Attendance {
  import opened Collections
  import opened Marks

  type Id = nat

  /** A record's natural key: its session and its student. */
  type Key = (Id, Id)

  datatype SessionStatus = Scheduled | Finished | CalledOff | Moved
  datatype Session = Session(class_: Id, date: int, status: SessionStatus)
  datatype ClassInfo = ClassInfo(course: Option<Id>, level: Option<Id>, capacity: Option<nat>)

  datatype SheetStatus = Open | Locked
  datatype Source = Regular | FromMakeup
  datatype Record = Record(enrollment: Option<Id>, source: Source, booking: Option<nat>, mark: Mark)

  /** An entitlement stands under the key of the absence it comes from. */
  datatype RightStatus = Available | Reserved | Consumed | Expired | Revoked
  datatype Entitlement = Entitlement(status: RightStatus, expires: int, enrollment: Option<Id>)

  /** A booking's id is its position in the table; its student is its entitlement's. */
  datatype BookingStatus = Booked | Used | Cancelled
  datatype Booking = Booking(entitlement: Key, destination: Id, status: BookingStatus)

  datatype Register = Register(sessions: map<Id, Session>, sheets: map<Id, SheetStatus>, records: map<Key, Record>,
                               entitlements: map<Key, Entitlement>, bookings: seq<Booking>)

  /** What a command finds around it: the date, the classes, each class's TRIAL and ACTIVE
      enrollments as (student, enrollment), and which enrollments are on trial now. */
  datatype Env = Env(today: int, classes: map<Id, ClassInfo>, roster: map<Id, seq<(Id, Id)>>, trials: set<Id>)

  datatype Error = NotFound | Conflict | BadRequest | ConstraintFailed
  datatype Answer = Done(register: Register) | Refused(error: Error)

  const EXPIRATION_DAYS := 30

  // ---------- initialization ----------

  function RosterOf(env: Env, class_: Id): seq<(Id, Id)> {
    if class_ in env.roster then env.roster[class_] else []
  }

  /** INSERT .. ON CONFLICT DO NOTHING for the first k enrollments of the roster. */
  function AddRoster(records: map<Key, Record>, session: Id, roster: seq<(Id, Id)>, k: nat): map<Key, Record>
    requires k <= |roster|
  {
    if k == 0 then records
    else
      var before := AddRoster(records, session, roster, k - 1);
      var (student, enrollment) := roster[k - 1];
      if (session, student) in before then before
      else before[(session, student) := Record(Some(enrollment), Regular, None, Unmarked)]
  }

  /** The upsert of a makeup participant: a new record takes the mark `first`; an unmarked regular
      record becomes the makeup's, marked; any other record stays. */
  function Place(records: map<Key, Record>, key: Key, booking: nat, first: Mark): map<Key, Record> {
    if key !in records then records[key := Record(None, FromMakeup, Some(booking), first)]
    else if records[key].source == Regular && records[key].mark == Unmarked then
      records[key := records[key].(source := FromMakeup, booking := Some(booking), mark := Makeup)]
    else records
  }

  predicate Targets(b: Booking, session: Id) {
    b.status == Booked && b.destination == session
  }

  function KeyOf(b: Booking): Key {
    (b.destination, b.entitlement.1)
  }

  function PlaceAll(records: map<Key, Record>, bookings: seq<Booking>, session: Id, k: nat): map<Key, Record>
    requires k <= |bookings|
  {
    if k == 0 then records
    else
      var before := PlaceAll(records, bookings, session, k - 1);
      if Targets(bookings[k - 1], session) then Place(before, KeyOf(bookings[k - 1]), k - 1, Unmarked) else before
  }

  function Initialize(r: Register, env: Env, session: Id): Register
    requires session in r.sessions
  {
    if session in r.sheets && r.sheets[session] == Locked then r
    else
      var roster := RosterOf(env, r.sessions[session].class_);
      var records := if session in r.sheets then r.records else AddRoster(r.records, session, roster, |roster|);
      r.(sheets := if session in r.sheets then r.sheets else r.sheets[session := Open],
         records := PlaceAll(records, r.bookings, session, |r.bookings|))
  }

  function InitializeCommand(r: Register, env: Env, session: Id): Answer {
    if session !in r.sessions then Refused(NotFound)
    else if r.sessions[session].status != Scheduled then Refused(Conflict)
    else Done(Initialize(r, env, session))
  }

  // ---------- marking ----------

  predicate MakeupMark(mark: Mark) {
    mark == Makeup || mark == AbsentUnexcused
  }

  function UpdateRecord(r: Register, key: Key, mark: Mark): Answer {
    if key !in r.records || key.0 !in r.sessions then Refused(NotFound)
    else if (key.0 in r.sheets && r.sheets[key.0] == Locked) || r.sessions[key.0].status != Scheduled
      then Refused(Conflict)
    else if r.records[key].source == FromMakeup && !MakeupMark(mark) then Refused(Conflict)
    else if r.records[key].source == Regular && mark == Makeup then Refused(ConstraintFailed)
    else Done(r.(records := r.records[key := r.records[key].(mark := mark)]))
  }

  // ---------- finalization ----------

  predicate Earns(env: Env, record: Record) {
    record.mark == AbsentExcused && record.source == Regular
    && (record.enrollment.Some? ==> record.enrollment.value !in env.trials)
  }

  function NewRight(r: Register, k: Key): Entitlement
    requires k in r.records && k.0 in r.sessions
  {
    Entitlement(Available, r.sessions[k.0].date + EXPIRATION_DAYS, r.records[k].enrollment)
  }

  function EarnedKeys(r: Register, env: Env, session: Id): set<Key> {
    set k | k in r.records && k.0 == session && Earns(env, r.records[k])
  }

  /** The entitlements with one more for each key that had none. */
  function WithRights(r: Register, keys: set<Key>): map<Key, Entitlement>
    requires forall k | k in keys :: k in r.records && k.0 in r.sessions
  {
    r.entitlements + map k | k in keys && k !in r.entitlements :: NewRight(r, k)
  }

  /** createEntitlements: one per excused regular absence that has none yet. */
  function CreateEntitlements(r: Register, env: Env, session: Id): Register
    requires session in r.sessions
  {
    r.(entitlements := WithRights(r, EarnedKeys(r, env, session)))
  }

  function Returned(e: Entitlement, today: int): Entitlement {
    e.(status := if today > e.expires then Expired else Available)
  }

  /** The booking's record shows the makeup was attended; records refer to bookings by a foreign
      key that includes session and student. */
  predicate Attended(records: map<Key, Record>, bookings: seq<Booking>, b: nat)
    requires b < |bookings|
  {
    KeyOf(bookings[b]) in records && records[KeyOf(bookings[b])].booking == Some(b)
    && records[KeyOf(bookings[b])].mark == Makeup
  }

  function EndBooking(r: Register, b: nat, status: BookingStatus): Register
    requires b < |r.bookings|
  {
    r.(bookings := r.bookings[b := r.bookings[b].(status := status)])
  }

  /** A booking of the session without an attended makeup is cancelled, its entitlement returned. */
  function CancelNoShow(r: Register, today: int, session: Id, b: nat): Register
    requires b < |r.bookings|
  {
    if Targets(r.bookings[b], session) && !Attended(r.records, r.bookings, b) then
      var e := r.bookings[b].entitlement;
      EndBooking(r, b, Cancelled).(entitlements :=
        if e in r.entitlements && r.entitlements[e].status == Reserved
          then r.entitlements[e := Returned(r.entitlements[e], today)]
        else r.entitlements)
    else r
  }

  /** A booking of the session with an attended makeup is used, its entitlement consumed. */
  function UseBooking(r: Register, session: Id, b: nat): Register
    requires b < |r.bookings|
  {
    if Targets(r.bookings[b], session) && Attended(r.records, r.bookings, b) then
      var e := r.bookings[b].entitlement;
      EndBooking(r, b, Used).(entitlements :=
        if e in r.entitlements then r.entitlements[e := r.entitlements[e].(status := Consumed)] else r.entitlements)
    else r
  }

  /** The first loop of reconcileMakeupBookings over the first k bookings. */
  function CancelNoShows(r: Register, today: int, session: Id, k: nat): (r': Register)
    requires k <= |r.bookings|
    ensures |r'.bookings| == |r.bookings|
  {
    if k == 0 then r else CancelNoShow(CancelNoShows(r, today, session, k - 1), today, session, k - 1)
  }

  /** The second loop: what is still booked was attended. */
  function UseAttended(r: Register, session: Id, k: nat): (r': Register)
    requires k <= |r.bookings|
    ensures |r'.bookings| == |r.bookings|
  {
    if k == 0 then r else UseBooking(UseAttended(r, session, k - 1), session, k - 1)
  }

  function Reconcile(r: Register, today: int, session: Id): Register {
    UseAttended(CancelNoShows(r, today, session, |r.bookings|), session, |r.bookings|)
  }

  predicate HasUnmarked(records: map<Key, Record>, session: Id) {
    exists k | k in records :: k.0 == session && records[k].mark == Unmarked
  }

  function Lock(r: Register, session: Id): Register
    requires session in r.sessions
  {
    r.(sheets := r.sheets[session := Locked],
       sessions := r.sessions[session := r.sessions[session].(status := Finished)])
  }

  function Finalize(r: Register, env: Env, session: Id): Answer {
    if session !in r.sessions then Refused(NotFound)
    else if r.sessions[session].status == CalledOff || r.sessions[session].status == Moved then Refused(Conflict)
    else if session in r.sheets && r.sheets[session] == Locked then Refused(Conflict)
    else
      var ready := Initialize(r, env, session);
      if HasUnmarked(ready.records, session) then Refused(BadRequest)
      else if r.sessions[session].status != Scheduled then Refused(Conflict)
      else Done(Reconcile(CreateEntitlements(Lock(ready, session), env, session), env.today, session))
  }

  // ---------- correction ----------

  predicate Engaged(r: Register, key: Key) {
    key in r.entitlements && (r.entitlements[key].status == Reserved || r.entitlements[key].status == Consumed)
  }

  /** reconcileCorrectedEntitlement */
  function FollowCorrection(r: Register, env: Env, key: Key, before: Mark): Register
    requires key in r.records && key.0 in r.sessions
  {
    var after := r.records[key].mark;
    if after == AbsentExcused && before != AbsentExcused then
      if key !in r.entitlements then CreateEntitlements(r, env, key.0)
      else if r.entitlements[key].status == Revoked then
        r.(entitlements := r.entitlements[key := Returned(r.entitlements[key], env.today)])
      else r
    else if after != AbsentExcused && before == AbsentExcused && key in r.entitlements
      && r.entitlements[key].status == Available then
      r.(entitlements := r.entitlements[key := r.entitlements[key].(status := Revoked)])
    else r
  }

  function Correct(r: Register, env: Env, key: Key, mark: Mark, reason: string): Answer {
    if key !in r.records || key.0 !in r.sessions || key.0 !in r.sheets || r.sheets[key.0] != Locked
      then Refused(NotFound)
    else
      var was := r.records[key];
      if reason == "" || mark == Unmarked || was.mark == mark then Refused(BadRequest)
      else if Engaged(r, key) && was.mark == AbsentExcused && mark != AbsentExcused then Refused(Conflict)
      else if mark == Makeup && (was.source != FromMakeup || was.booking.None?) then Refused(Conflict)
      else if was.source == FromMakeup && !MakeupMark(mark) then Refused(Conflict)
      else Done(FollowCorrection(r.(records := r.records[key := was.(mark := mark)]), env, key, was.mark))
  }

  // ---------- booking ----------

  predicate Compatible(target: ClassInfo, origin: ClassInfo) {
    target.course == origin.course && (origin.level.Some? ==> target.level == origin.level)
  }

  function ClassOf(r: Register, env: Env, session: Id): Option<ClassInfo> {
    if session in r.sessions && r.sessions[session].class_ in env.classes
      then Some(env.classes[r.sessions[session].class_]) else None
  }

  predicate SourceFinished(r: Register, session: Id) {
    session in r.sessions && r.sessions[session].status == Finished
  }

  /** What keeps a destination session from being booked, before its sheet is looked at. */
  function DestinationError(r: Register, env: Env, origin: Id, destination: Id, expires: int): Option<Error> {
    var target, source := ClassOf(r, env, destination), ClassOf(r, env, origin);
    if target.None? then Some(NotFound)
    else if r.sessions[destination].status != Scheduled then Some(Conflict)
    else if source.None? || !Compatible(target.value, source.value) then Some(Conflict)
    else if r.sessions[destination].date > expires then Some(Conflict)
    else None
  }

  predicate ActiveAt(bookings: seq<Booking>, student: Id, session: Id) {
    exists i | 0 <= i < |bookings| :: Targets(bookings[i], session) && bookings[i].entitlement.1 == student
  }

  predicate ActiveFor(bookings: seq<Booking>, e: Key) {
    exists i | 0 <= i < |bookings| :: bookings[i].status == Booked && bookings[i].entitlement == e
  }

  predicate Participates(r: Register, session: Id, student: Id) {
    if (session, student) in r.records then
      !(r.records[(session, student)].source == Regular && r.records[(session, student)].mark == Unmarked)
    else ActiveAt(r.bookings, student, session)
  }

  /** Everyone with a record in a session or a booking for it. */
  function Occupants(r: Register, session: Id): set<Id> {
    (set k | k in r.records && k.0 == session :: k.1)
    + (set i | 0 <= i < |r.bookings| && Targets(r.bookings[i], session) :: r.bookings[i].entitlement.1)
  }

  predicate FullFor(r: Register, env: Env, session: Id, student: Id)
    requires ClassOf(r, env, session).Some?
  {
    match ClassOf(r, env, session).value.capacity
    case None => false
    case Some(capacity) => |Occupants(r, session) - {student}| >= capacity
  }

  /** The checks on an initialized destination. */
  function SeatError(r: Register, env: Env, session: Id, student: Id): Option<Error>
    requires ClassOf(r, env, session).Some?
  {
    if session !in r.sheets || r.sheets[session] != Open then Some(Conflict)
    else if Participates(r, session, student) || FullFor(r, env, session, student) then Some(Conflict)
    else None
  }

  /** The three rows a booking writes. */
  function Seated(r: Register, e: Key, destination: Id): Register
    requires e in r.entitlements
  {
    r.(bookings := r.bookings + [Booking(e, destination, Booked)],
       entitlements := r.entitlements[e := r.entitlements[e].(status := Reserved)],
       records := Place(r.records, (destination, e.1), |r.bookings|, Unmarked))
  }

  function BookMakeup(r: Register, env: Env, e: Key, destination: Id): Answer {
    if e !in r.entitlements then Refused(NotFound)
    else
      var right := r.entitlements[e];
      if right.status != Available then Refused(Conflict)
      else if e.0 !in r.sessions then Refused(NotFound)
      else if !SourceFinished(r, e.0) || env.today > right.expires then Refused(Conflict)
      else if DestinationError(r, env, e.0, destination, right.expires).Some? then
        Refused(DestinationError(r, env, e.0, destination, right.expires).value)
      else
        var ready := Initialize(r, env, destination);
        if SeatError(ready, env, destination, e.1).Some? then Refused(SeatError(ready, env, destination, e.1).value)
        else if ActiveFor(ready.bookings, e) || ActiveAt(ready.bookings, e.1, destination) then Refused(Conflict)
        else
          Done(Seated(ready, e, destination))
  }

  /** Takes a booking's records out of some sessions: rostered students are restored, others go. */
  function Released(records: map<Key, Record>, b: nat, sessions: set<Id>): map<Key, Record> {
    map k | k in records && !(records[k].booking == Some(b) && k.0 in sessions && records[k].enrollment.None?) ::
      if records[k].booking == Some(b) && k.0 in sessions
        then records[k].(source := Regular, booking := None, mark := Unmarked)
      else records[k]
  }

  /** What a rebooking writes: the old session's record, the booking, the new session's record. */
  function Shifted(r: Register, b: nat, destination: Id): Register
    requires b < |r.bookings|
  {
    r.(bookings := r.bookings[b := r.bookings[b].(destination := destination)],
       records := Place(Released(r.records, b, {r.bookings[b].destination}), (destination, r.bookings[b].entitlement.1),
                        b, Makeup))
  }

  function RebookMakeup(r: Register, env: Env, b: nat, destination: Id): Answer {
    if b >= |r.bookings| || r.bookings[b].entitlement !in r.entitlements then Refused(NotFound)
    else
      var booking := r.bookings[b];
      var e, current := booking.entitlement, booking.destination;
      var right := r.entitlements[e];
      if booking.status != Booked || env.today > right.expires then Refused(Conflict)
      else if current == destination then Refused(BadRequest)
      else if !SourceFinished(r, e.0) then Refused(Conflict)
      else if DestinationError(r, env, e.0, destination, right.expires).Some? then
        Refused(DestinationError(r, env, e.0, destination, right.expires).value)
      else
        var ready := Initialize(r, env, destination);
        if SeatError(ready, env, destination, e.1).Some? then Refused(SeatError(ready, env, destination, e.1).value)
        else if current in ready.sheets && ready.sheets[current] == Locked then Refused(Conflict)
        else if ActiveAt(ready.bookings, e.1, destination) then Refused(Conflict)
        else
          Done(Shifted(ready, b, destination))
  }

  function OpenSheets(sheets: map<Id, SheetStatus>): set<Id> {
    set s | s in sheets && sheets[s] == Open
  }

  function CancelMakeup(r: Register, env: Env, b: nat): Answer {
    if b >= |r.bookings| then Refused(NotFound)
    else if r.bookings[b].status != Booked then Refused(Conflict)
    else
      var e := r.bookings[b].entitlement;
      Done(EndBooking(r, b, Cancelled).(
             entitlements := if e in r.entitlements then r.entitlements[e := Returned(r.entitlements[e], env.today)]
               else r.entitlements,
             records := Released(r.records, b, OpenSheets(r.sheets))))
  }

  // ---------- the machine ----------

  /** A session the schedule adds comes without a sheet; one created by hand is initialized. */
  datatype Command =
    | AddSession(id: Id, class_: Id, date: int)
    | CreateSession(id: Id, class_: Id, date: int)
    | InitializeSession(session: Id)
    | MarkRecord(key: Key, mark: Mark)
    | FinalizeSession(session: Id)
    | CorrectRecord(key: Key, mark: Mark, reason: string)
    | Book(entitlement: Key, destination: Id)
    | Rebook(booking: nat, destination: Id)
    | Cancel(booking: nat)

  function Added(r: Register, id: Id, class_: Id, date: int): Register {
    r.(sessions := r.sessions[id := Session(class_, date, Scheduled)])
  }

  function Try(r: Register, env: Env, c: Command): Answer {
    match c
    case AddSession(id, class_, date) => if id in r.sessions then Refused(Conflict)
      else Done(Added(r, id, class_, date))
    case CreateSession(id, class_, date) =>
      if id in r.sessions then Refused(Conflict) else Done(Initialize(Added(r, id, class_, date), env, id))
    case InitializeSession(session) => InitializeCommand(r, env, session)
    case MarkRecord(key, mark) => UpdateRecord(r, key, mark)
    case FinalizeSession(session) => Finalize(r, env, session)
    case CorrectRecord(key, mark, reason) => Correct(r, env, key, mark, reason)
    case Book(e, destination) => BookMakeup(r, env, e, destination)
    case Rebook(b, destination) => RebookMakeup(r, env, b, destination)
    case Cancel(b) => CancelMakeup(r, env, b)
  }

  function Step(r: Register, env: Env, c: Command): Register {
    match Try(r, env, c)
    case Done(register) => register
    case Refused(_) => r
  }
}

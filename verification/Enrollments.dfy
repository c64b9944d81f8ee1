/** Enrollments: creation, transitions, transfer and re-enrollment under class capacities. */
module Enrollments {
  import opened Collections

  type Id = nat

  datatype Status = Pending | Trial | Active | Paused | Completed | Withdrawn | Cancelled
  datatype Verb = Activate | BeginTrial | Pause | Resume | Withdraw | Complete | Cancel
  datatype EventKind = Enrolled | Activated | TrialStarted | PausedEvent | Resumed | Transferred | WithdrawnEvent
                     | CompletedEvent | CancelledEvent | Reenrolled

  /** An enrollment's id is its position in the table, so ids follow the order of creation. */
  datatype Enrollment = Enrollment(student: Id, class_: Id, status: Status, startedAt: Option<int>,
                                   endedAt: Option<int>,
                                   pauseStartedAt: Option<int>, source: Option<Id>)
  datatype Event = Event(enrollment: Id, kind: EventKind, from: Option<Status>, to: Status, at: int, id: Id)
  datatype Table = Table(rows: seq<Enrollment>, events: seq<Event>)

  datatype Class = Class(active: bool, capacity: Option<nat>)

  /** What a transaction finds around it: its timestamp, the students (active or not), the
      classes, and the ids it generates. */
  datatype Env = Env(now: int, students: map<Id, bool>, classes: map<Id, Class>, ulid: nat -> Id)

  datatype Error = NotFound | Conflict | BadRequest
  datatype Outcome = Done(table: Table, id: Id) | Failed(error: Error)

  predicate Operational(s: Status) {
    s == Pending || s == Trial || s == Active || s == Paused
  }

  predicate Terminal(s: Status) {
    s == Completed || s == Withdrawn || s == Cancelled
  }

  predicate Initial(s: Status) {
    s == Pending || s == Trial || s == Active
  }

  predicate Allowed(from: Status, to: Status) {
    match from
    case Pending => to == Active || to == Trial || to == Cancelled
    case Trial => to == Active || to == Cancelled || to == Withdrawn
    case Active => to == Paused || to == Completed || to == Withdrawn
    case Paused => to == Active || to == Withdrawn
    case _ => false
  }

  function Target(verb: Verb): Status {
    match verb
    case Activate => Active
    case BeginTrial => Trial
    case Pause => Paused
    case Resume => Active
    case Withdraw => Withdrawn
    case Complete => Completed
    case Cancel => Cancelled
  }

  function KindOf(verb: Verb): EventKind {
    match verb
    case Activate => Activated
    case BeginTrial => TrialStarted
    case Pause => PausedEvent
    case Resume => Resumed
    case Withdraw => WithdrawnEvent
    case Complete => CompletedEvent
    case Cancel => CancelledEvent
  }

  // ---------- checks ----------

  predicate Takes(row: Enrollment, class_: Id) {
    row.class_ == class_ && Operational(row.status)
  }

  /** COUNT(*) of a class's consuming enrollments, leaving one out. */
  function Consumers(rows: seq<Enrollment>, class_: Id, except: Option<Id>): nat {
    if |rows| == 0 then 0
    else
      var n := |rows| - 1;
      Consumers(rows[..n], class_, except) + if except != Some(n) && Takes(rows[n], class_) then 1 else 0
  }

  /** validateStudentAndClass */
  function MissingOrDisabled(env: Env, student: Id, class_: Id, active: bool): Option<Error> {
    if student !in env.students then Some(NotFound)
    else if active && !env.students[student] then Some(Conflict)
    else if class_ !in env.classes then Some(NotFound)
    else if active && !env.classes[class_].active then Some(Conflict)
    else None
  }

  /** lockCapacity */
  function CapacityError(t: Table, env: Env, class_: Id, status: Status, except: Option<Id>): Option<Error> {
    if !Operational(status) then None
    else if class_ !in env.classes then Some(NotFound)
    else match env.classes[class_].capacity
      case None => None
      case Some(capacity) => if Consumers(t.rows, class_, except) >= capacity then Some(Conflict) else None
  }

  /** The partial unique index on (student, class) over operational rows. */
  predicate PairTaken(rows: seq<Enrollment>, student: Id, class_: Id) {
    exists i | 0 <= i < |rows| :: rows[i].student == student && Takes(rows[i], class_)
  }

  // ---------- commands ----------

  function CreatedEvents(id: Id, status: Status, env: Env): seq<Event> {
    [Event(id, Enrolled, None, status, env.now, env.ulid(0))]
    + if status == Active then [Event(id, Activated, Some(status), status, env.now, env.ulid(1))]
      else if status == Trial then [Event(id, TrialStarted, Some(status), status, env.now, env.ulid(1))]
      else []
  }

  function Create(t: Table, env: Env, student: Id, class_: Id, status: Status, enrolledAt: Option<int>): Outcome
    requires Initial(status)
  {
    var missing := MissingOrDisabled(env, student, class_, status != Pending);
    var full := CapacityError(t, env, class_, status, None);
    if missing.Some? then Failed(missing.value)
    else if full.Some? then Failed(full.value)
    else if PairTaken(t.rows, student, class_) then Failed(Conflict)
    else
      var row := Enrollment(student, class_, status, if status == Active then enrolledAt else None, None, None, None);
      Done(Table(t.rows + [row], t.events + CreatedEvents(|t.rows|, status, env)), |t.rows|)
  }

  function Moved(row: Enrollment, next: Status, at: int): Enrollment {
    row.(status := next,
         startedAt := if next == Active && row.startedAt.None? then Some(at) else row.startedAt,
         pauseStartedAt := if next == Paused then Some(at) else None,
         endedAt := if Terminal(next) then Some(at) else None)
  }

  function At(env: Env, effectiveAt: Option<int>): int {
    if effectiveAt.Some? then effectiveAt.value else env.now
  }

  function Transition(t: Table, env: Env, id: Id, verb: Verb, effectiveAt: Option<int>): Outcome {
    if id >= |t.rows| then Failed(NotFound)
    else
      var current, next := t.rows[id], Target(verb);
      var full := if next == Active || next == Paused then CapacityError(t, env, current.class_, next, Some(id))
        else None;
      if !Allowed(current.status, next) then Failed(Conflict)
      else if full.Some? then Failed(full.value)
      else
        Done(Table(t.rows[id := Moved(current, next, At(env, effectiveAt))],
                   t.events + [Event(id, KindOf(verb), Some(current.status), next, env.now, env.ulid(0))]), id)
  }

  function Closed(row: Enrollment, at: int): Enrollment {
    row.(status := Withdrawn, endedAt := Some(at))
  }

  function Continued(source: Enrollment, id: Id, class_: Id, at: int): Enrollment {
    Enrollment(source.student, class_, source.status,
               if source.startedAt.Some? then source.startedAt else if source.status == Active then Some(at) else None,
               None, None, Some(id))
  }

  function Transfer(t: Table, env: Env, id: Id, destination: Id, effectiveAt: Option<int>): Outcome {
    if id >= |t.rows| then Failed(NotFound)
    else
      var source, at := t.rows[id], At(env, effectiveAt);
      var missing := MissingOrDisabled(env, source.student, destination, source.status == Active);
      var full := CapacityError(t, env, destination, source.status, None);
      if !Operational(source.status) then Failed(Conflict)
      else if source.class_ == destination then Failed(BadRequest)
      else if missing.Some? then Failed(missing.value)
      else if full.Some? then Failed(full.value)
      else if PairTaken(t.rows, source.student, destination) then Failed(Conflict)
      else
        Done(Table(t.rows[id := Closed(source, at)] + [Continued(source, id, destination, at)],
                   t.events + [Event(id, Transferred, Some(source.status), Withdrawn, env.now, env.ulid(0)),
                               Event(|t.rows|, Transferred, None, source.status, env.now, env.ulid(1))]), |t.rows|)
  }

  function Reenroll(t: Table, env: Env, id: Id, student: Id, class_: Id, status: Status,
                    enrolledAt: Option<int>): Outcome
    requires Initial(status)
  {
    if id >= |t.rows| then Failed(NotFound)
    else
      var source := t.rows[id];
      var missing := MissingOrDisabled(env, source.student, class_, status != Pending);
      var full := CapacityError(t, env, class_, status, None);
      if !Terminal(source.status) then Failed(Conflict)
      else if student != source.student then Failed(BadRequest)
      else if missing.Some? then Failed(missing.value)
      else if full.Some? then Failed(full.value)
      else if PairTaken(t.rows, source.student, class_) then Failed(Conflict)
      else
        var startedAt := if status == Active then enrolledAt else None;
        var row := Enrollment(source.student, class_, status, startedAt, None, None, Some(id));
        Done(Table(t.rows + [row],
                   t.events + [Event(|t.rows|, Reenrolled, Some(source.status), status, env.now, env.ulid(0))]),
             |t.rows|)
  }

  datatype Command =
    | CreateCommand(student: Id, class_: Id, status: Status, at: Option<int>)
    | TransitionCommand(id: Id, verb: Verb, at: Option<int>)
    | TransferCommand(id: Id, class_: Id, at: Option<int>)
    | ReenrollCommand(id: Id, student: Id, class_: Id, status: Status, at: Option<int>)

  /** The request validation only lets the three initial statuses through. */
  predicate WellFormed(c: Command) {
    match c
    case CreateCommand(_, _, status, _) => Initial(status)
    case ReenrollCommand(_, _, _, status, _) => Initial(status)
    case _ => true
  }

  function Perform(t: Table, env: Env, c: Command): Outcome
    requires WellFormed(c)
  {
    match c
    case CreateCommand(student, class_, status, at) => Create(t, env, student, class_, status, at)
    case TransitionCommand(id, verb, at) => Transition(t, env, id, verb, at)
    case TransferCommand(id, class_, at) => Transfer(t, env, id, class_, at)
    case ReenrollCommand(id, student, class_, status, at) => Reenroll(t, env, id, student, class_, status, at)
  }

  function After(t: Table, o: Outcome): Table {
    if o.Done? then o.table else t
  }
}

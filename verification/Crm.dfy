/** Leads, trial bookings and conversion, driving the enrollment tables. */
module Crm {
  import opened Collections
  import opened Enrollments
  import opened Marks

  datatype LeadStatus = New | Contacted | Qualified | TrialBooked | TrialCompleted | Won | Lost
  datatype Lead = Lead(status: LeadStatus, namesGuardian: bool, lostReason: Option<nat>, student: Option<Id>,
                       guardian: Option<Id>, enrollment: Option<Id>)
  datatype BookingStatus = Booked | Attended | NoShow | BookingCancelled
  datatype Verdict = Enrolls | FollowUp | GivesUp

  /** Bookings stand in the table in the order of their booking times. */
  datatype Booking = Booking(lead: Id, session: Id, student: Id, guardian: Option<Id>, enrollment: Id,
                             status: BookingStatus, verdict: Option<Verdict>)

  datatype Session = Session(class_: Id, scheduled: bool, date: int)

  /** What a CRM command finds around it: the enrollment surroundings, sessions, attendance, today,
      and the records it would create. A new student's generated code may collide: then None. */
  datatype CrmEnv = CrmEnv(base: Env, today: int, sessions: map<Id, Session>, locked: set<Id>,
                           marks: map<(Id, Id), Mark>,
                           guardians: set<Id>, newStudent: Option<Id>, newGuardian: Id)

  datatype Office = Office(table: Table, leads: map<Id, Lead>, bookings: seq<Booking>)
  datatype Result = Ok(office: Office) | Err(error: Error)

  /** LEAD_TRANSITIONS */
  predicate LeadAllowed(from: LeadStatus, to: LeadStatus) {
    match from
    case New => to == Contacted || to == Qualified || to == Lost
    case Contacted => to == Qualified || to == Lost
    case Qualified => to == TrialBooked || to == Won || to == Lost
    case TrialBooked => to == TrialCompleted || to == Qualified || to == Lost
    case TrialCompleted => to == Won || to == Qualified || to == Lost
    case Won => false
    case Lost => false
  }

  // ---------- student and guardian ----------

  datatype People = People(student: Id, guardian: Option<Id>)
  datatype Choice = Choice(student: Option<Id>, createStudent: bool, guardian: Option<Id>, createGuardian: bool)
  datatype Chosen = Picked(people: People, students: map<Id, bool>) | Refused(error: Error)

  function WithStudents(env: Env, students: map<Id, bool>): Env {
    env.(students := students)
  }

  /** The lead's latest booking. */
  function TrialDefaults(bookings: seq<Booking>, lead: Id): Option<People> {
    if |bookings| == 0 then None
    else
      var b := bookings[|bookings| - 1];
      if b.lead == lead then Some(People(b.student, b.guardian)) else TrialDefaults(bookings[..|bookings| - 1], lead)
  }

  function ChooseStudent(env: CrmEnv, choice: Choice, defaults: Option<People>): Chosen {
    if choice.student.Some? && choice.createStudent then Refused(BadRequest)
    else if choice.student.Some? then
      if choice.student.value in env.base.students then Picked(People(choice.student.value, None), env.base.students)
      else Refused(NotFound)
    else if choice.createStudent then
      match env.newStudent
      case None => Refused(Conflict)
      case Some(id) => Picked(People(id, None), env.base.students[id := true])
    else if defaults.Some? then Picked(People(defaults.value.student, None), env.base.students)
    else Refused(BadRequest)
  }

  /** ensureStudentAndGuardian */
  function Ensure(env: CrmEnv, lead: Lead, choice: Choice, defaults: Option<People>): Chosen {
    match ChooseStudent(env, choice, defaults)
    case Refused(error) => Refused(error)
    case Picked(people, students) =>
      if choice.createGuardian && !lead.namesGuardian && choice.guardian.None? then Refused(BadRequest)
      else if choice.guardian.Some? then
        if choice.guardian.value in env.guardians then Picked(people.(guardian := choice.guardian), students)
          else Refused(NotFound)
      else if choice.createGuardian then Picked(people.(guardian := Some(env.newGuardian)), students)
      else if defaults.Some? then Picked(people.(guardian := defaults.value.guardian), students)
      else Picked(people, students)
  }

  // ---------- leads ----------

  function SetLead(o: Office, id: Id, lead: Lead): Office {
    o.(leads := o.leads[id := lead])
  }

  function CreateLead(o: Office, id: Id, namesGuardian: bool): Result {
    if id in o.leads then Err(Conflict)
    else Ok(SetLead(o, id, Lead(New, namesGuardian, None, None, None, None)))
  }

  /** contact and qualify */
  function SimpleTransition(o: Office, id: Id, to: LeadStatus): Result {
    if id !in o.leads then Err(NotFound)
    else if !LeadAllowed(o.leads[id].status, to) then Err(Conflict)
    else Ok(SetLead(o, id, o.leads[id].(status := to)))
  }

  // ---------- trials ----------

  predicate HasBooked(bookings: seq<Booking>, lead: Id) {
    exists k | 0 <= k < |bookings| :: bookings[k].lead == lead && bookings[k].status == Booked
  }

  function SessionError(env: CrmEnv, session: Id): Option<Error> {
    if session !in env.sessions then Some(NotFound)
    else
      var s := env.sessions[session];
      if !s.scheduled || s.date < env.today then Some(Conflict)
      else if s.class_ !in env.base.classes then Some(NotFound)
      else if !env.base.classes[s.class_].active then Some(Conflict)
      else None
  }

  function Book(o: Office, env: CrmEnv, lead: Id, session: Id, choice: Choice): Result {
    if lead !in o.leads then Err(NotFound)
    else if o.leads[lead].status != Qualified || HasBooked(o.bookings, lead) then Err(Conflict)
    else if SessionError(env, session).Some? then Err(SessionError(env, session).value)
    else
      match Ensure(env, o.leads[lead], choice, TrialDefaults(o.bookings, lead))
      case Refused(error) => Err(error)
      case Picked(people, students) =>
        match Create(o.table, WithStudents(env.base, students), people.student, env.sessions[session].class_,
                     Trial, None)
        case Failed(error) => Err(error)
        case Done(table, enrollment) =>
          Ok(Office(table, o.leads[lead := o.leads[lead].(status := TrialBooked)],
                    o.bookings + [Booking(lead, session, people.student, people.guardian, enrollment, Booked, None)]))
  }

  /** Cancels one booking and withdraws its enrollment if it was read as still a trial. */
  function DropBooking(o: Office, env: CrmEnv, k: nat, read: seq<Enrollment>): Result
    requires k < |o.bookings|
  {
    var b := o.bookings[k];
    var bookings := o.bookings[k := b.(status := BookingCancelled)];
    if b.enrollment < |read| && read[b.enrollment].status == Trial then
      match Transition(o.table, env.base, b.enrollment, Withdraw, None)
      case Failed(error) => Err(error)
      case Done(table, _) => Ok(o.(table := table, bookings := bookings))
    else Ok(o.(bookings := bookings))
  }

  function CancelTrial(o: Office, env: CrmEnv, k: nat): Result {
    if k >= |o.bookings| then Err(NotFound)
    else if o.bookings[k].status != Booked then Err(Conflict)
    else if o.bookings[k].lead !in o.leads then Err(NotFound)
    else
      var lead := o.bookings[k].lead;
      match DropBooking(o, env, k, o.table.rows)
      case Err(error) => Err(error)
      case Ok(o') =>
        Ok(if o.leads[lead].status == TrialBooked then SetLead(o', lead, o.leads[lead].(status := Qualified)) else o')
  }

  predicate AttendedBy(mark: Mark) {
    mark == Present || mark == Late || mark == Online
  }

  function StatusAfter(verdict: Verdict): LeadStatus {
    match verdict
    case Enrolls => TrialCompleted
    case FollowUp => Qualified
    case GivesUp => Lost
  }

  function RecordOutcome(o: Office, env: CrmEnv, k: nat, verdict: Verdict, lostReason: Option<nat>): Result {
    if k >= |o.bookings| then Err(NotFound)
    else
      var b := o.bookings[k];
      if b.status != Booked then Err(Conflict)
      else if b.lead !in o.leads then Err(NotFound)
      else if b.session !in env.locked || (b.session, b.student) !in env.marks
        || env.marks[(b.session, b.student)] == Unmarked
      then Err(Conflict)
      else if verdict == GivesUp && lostReason.None? then Err(BadRequest)
      else if !LeadAllowed(o.leads[b.lead].status, StatusAfter(verdict)) then Err(Conflict)
      else
        var status := if AttendedBy(env.marks[(b.session, b.student)]) then Attended else NoShow;
        var lead := o.leads[b.lead].(status := StatusAfter(verdict),
                                     lostReason := if verdict == GivesUp then lostReason
                                       else o.leads[b.lead].lostReason);
        Ok(SetLead(o, b.lead, lead).(bookings := o.bookings[k := b.(status := status, verdict := Some(verdict))]))
  }

  /** The loop of lost over the lead's booked trials, latest first, down to position k. */
  function DropAll(o: Office, env: CrmEnv, lead: Id, k: nat): Result
    requires k <= |o.bookings|
    ensures DropAll(o, env, lead, k).Ok? ==> |DropAll(o, env, lead, k).office.bookings| == |o.bookings|
    decreases |o.bookings| - k
  {
    if k == |o.bookings| then Ok(o)
    else
      match DropAll(o, env, lead, k + 1)
      case Err(error) => Err(error)
      case Ok(o') =>
        var b := o.bookings[k];
        if b.lead == lead && b.status == Booked && b.enrollment < |o.table.rows|
          then DropBooking(o', env, k, o.table.rows)
        else Ok(o')
  }

  function MarkLost(o: Office, env: CrmEnv, id: Id, reason: nat): Result {
    if id !in o.leads then Err(NotFound)
    else if !LeadAllowed(o.leads[id].status, Lost) then Err(Conflict)
    else DropAll(SetLead(o, id, o.leads[id].(status := Lost, lostReason := Some(reason))), env, id, 0)
  }

  // ---------- conversion ----------

  datatype Mode = TrialPromoted | TrialReenrolled | Direct
  datatype Conversion = Converted(office: Office, enrollment: Id, mode: Mode) | NotConverted(error: Error)

  /** The latest booked trial enrollment of this student that is still a trial. */
  function OpenTrial(bookings: seq<Booking>, rows: seq<Enrollment>, lead: Id, student: Id): (r: Option<Id>)
    ensures r.Some? ==> r.value < |rows| && rows[r.value].status == Trial && rows[r.value].student == student
  {
    if |bookings| == 0 then None
    else
      var b := bookings[|bookings| - 1];
      if b.lead == lead && b.enrollment < |rows| && rows[b.enrollment].status == Trial
        && rows[b.enrollment].student == student
      then Some(b.enrollment)
      else OpenTrial(bookings[..|bookings| - 1], rows, lead, student)
  }

  datatype Enrolling = InClass(table: Table, enrollment: Id, mode: Mode) | NotEnrolled(error: Error)

  function EnrollInto(t: Table, env: Env, trial: Option<Id>, student: Id, class_: Id): Enrolling
    requires trial.Some? ==> trial.value < |t.rows|
  {
    match trial
    case Some(id) =>
      if t.rows[id].class_ == class_ then
        match Transition(t, env, id, Activate, None)
        case Failed(error) => NotEnrolled(error)
        case Done(table, _) => InClass(table, id, TrialPromoted)
      else
        (match Transition(t, env, id, Withdraw, None)
         case Failed(error) => NotEnrolled(error)
         case Done(t1, _) =>
           match Reenroll(t1, env, id, student, class_, Active, None)
           case Failed(error) => NotEnrolled(error)
           case Done(table, enrollment) => InClass(table, enrollment, TrialReenrolled))
    case None =>
      match Create(t, env, student, class_, Active, None)
      case Failed(error) => NotEnrolled(error)
      case Done(table, enrollment) => InClass(table, enrollment, Direct)
  }

  function Convert(o: Office, env: CrmEnv, id: Id, choice: Choice, class_: Id): Conversion {
    if id !in o.leads then NotConverted(NotFound)
    else if o.leads[id].status != Qualified && o.leads[id].status != TrialCompleted then NotConverted(Conflict)
    else
      match Ensure(env, o.leads[id], choice, TrialDefaults(o.bookings, id))
      case Refused(error) => NotConverted(error)
      case Picked(people, students) =>
        var trial := OpenTrial(o.bookings, o.table.rows, id, people.student);
        match EnrollInto(o.table, WithStudents(env.base, students), trial, people.student, class_)
        case NotEnrolled(error) => NotConverted(error)
        case InClass(table, enrollment, mode) =>
          var lead := o.leads[id].(status := Won, student := Some(people.student), guardian := people.guardian,
                                   enrollment := Some(enrollment));
          Converted(SetLead(o.(table := table), id, lead), enrollment, mode)
  }

  // ---------- the joint machine ----------

  datatype CrmCommand =
    | EnrollmentCommand(command: Command)
    | CreateLeadCommand(id: Id, namesGuardian: bool)
    | ContactCommand(id: Id)
    | QualifyCommand(id: Id)
    | BookCommand(id: Id, session: Id, choice: Choice)
    | CancelCommand(booking: nat)
    | OutcomeCommand(booking: nat, verdict: Verdict, lostReason: Option<nat>)
    | LostCommand(id: Id, reason: nat)
    | ConvertCommand(id: Id, choice: Choice, class_: Id)

  predicate Accepted(c: CrmCommand) {
    c.EnrollmentCommand? ==> WellFormed(c.command)
  }

  function Try(o: Office, env: CrmEnv, c: CrmCommand): Result
    requires Accepted(c)
  {
    match c
    case EnrollmentCommand(command) =>
      (match Perform(o.table, env.base, command)
       case Done(table, _) => Ok(o.(table := table))
       case Failed(error) => Err(error))
    case CreateLeadCommand(id, namesGuardian) => CreateLead(o, id, namesGuardian)
    case ContactCommand(id) => SimpleTransition(o, id, Contacted)
    case QualifyCommand(id) => SimpleTransition(o, id, Qualified)
    case BookCommand(id, session, choice) => Book(o, env, id, session, choice)
    case CancelCommand(k) => CancelTrial(o, env, k)
    case OutcomeCommand(k, verdict, lostReason) => RecordOutcome(o, env, k, verdict, lostReason)
    case LostCommand(id, reason) => MarkLost(o, env, id, reason)
    case ConvertCommand(id, choice, class_) =>
      match Convert(o, env, id, choice, class_)
      case Converted(office, _, _) => Ok(office)
      case NotConverted(error) => Err(error)
  }

  function Step(o: Office, env: CrmEnv, c: CrmCommand): Office
    requires Accepted(c)
  {
    match Try(o, env, c)
    case Ok(office) => office
    case Err(_) => o
  }
}

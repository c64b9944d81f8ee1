/** Leads, trials and enrollments stay consistent over every interleaving of CRM and enrollment
    commands. */
module CrmSafety {
  import opened Collections
  import opened Enrollments
  import opened EnrollmentSafety
  import opened Crm

  // ---------- the invariant ----------

  predicate BookingKnown(o: Office, b: Booking) {
    && b.lead in o.leads && b.enrollment < |o.table.rows| && o.table.rows[b.enrollment].student == b.student
    && o.table.rows[b.enrollment].status != Pending
    && (b.status == BookingCancelled ==> o.table.rows[b.enrollment].status != Trial)
  }

  ghost predicate BookingsKnown(o: Office) {
    forall b | b in o.bookings :: BookingKnown(o, b)
  }

  ghost predicate OneBooked(bookings: seq<Booking>) {
    forall i, j | 0 <= i < j < |bookings| && bookings[i].lead == bookings[j].lead ::
      bookings[i].status != Booked || bookings[j].status != Booked
  }

  /** What a lead's status says about its bookings and its conversion. */
  predicate LeadAgrees(o: Office, id: Id)
    requires id in o.leads
  {
    var lead := o.leads[id];
    && (lead.status == TrialBooked ==> HasBooked(o.bookings, id))
    && (lead.status == Lost ==> !HasBooked(o.bookings, id))
    && (lead.status == Won ==>
          lead.student.Some? && lead.enrollment.Some? && lead.enrollment.value < |o.table.rows|
          && o.table.rows[lead.enrollment.value].student == lead.student.value)
  }

  ghost predicate LeadsAgree(o: Office) {
    forall id | id in o.leads :: LeadAgrees(o, id)
  }

  ghost predicate Consistent(o: Office) {
    BookingsKnown(o) && OneBooked(o.bookings) && LeadsAgree(o)
  }

  // ---------- enrollment changes underneath ----------

  lemma TableExtended(o: Office, table: Table)
    requires Consistent(o) && Extends(o.table, table)
    ensures Consistent(o.(table := table))
  {
    var o' := o.(table := table);
    forall b | b in o'.bookings ensures BookingKnown(o', b) { assert BookingKnown(o, b); }
    forall id | id in o'.leads ensures LeadAgrees(o', id) { assert LeadAgrees(o, id); }
  }

  lemma TransitionExtends(t: Table, env: Env, id: Id, verb: Verb, at: Option<int>)
    ensures Extends(t, After(t, Transition(t, env, id, verb, at)))
  {
    PerformExtends(t, env, TransitionCommand(id, verb, at));
  }

  // ---------- lead changes ----------

  lemma LeadSet(o: Office, id: Id, lead: Lead)
    requires Consistent(o)
    requires LeadAgrees(SetLead(o, id, lead), id)
    ensures Consistent(SetLead(o, id, lead))
  {
    var o' := SetLead(o, id, lead);
    forall b | b in o'.bookings ensures BookingKnown(o', b) { assert BookingKnown(o, b); }
    forall x | x in o'.leads ensures LeadAgrees(o', x) {
      if x != id { assert LeadAgrees(o, x); }
    }
  }

  lemma CreateLeadConsistent(o: Office, id: Id, namesGuardian: bool)
    requires Consistent(o) && CreateLead(o, id, namesGuardian).Ok?
    ensures Consistent(CreateLead(o, id, namesGuardian).office)
  {
    LeadSet(o, id, Lead(New, namesGuardian, None, None, None, None));
  }

  lemma SimpleConsistent(o: Office, id: Id, to: LeadStatus)
    requires to == Contacted || to == Qualified
    requires Consistent(o) && SimpleTransition(o, id, to).Ok?
    ensures Consistent(SimpleTransition(o, id, to).office)
  {
    LeadSet(o, id, o.leads[id].(status := to));
  }

  // ---------- booking ----------

  lemma BookConsistent(o: Office, env: CrmEnv, lead: Id, session: Id, choice: Choice)
    requires Consistent(o) && Book(o, env, lead, session, choice).Ok?
    ensures Consistent(Book(o, env, lead, session, choice).office)
  {
    var o' := Book(o, env, lead, session, choice).office;
    var picked := Ensure(env, o.leads[lead], choice, TrialDefaults(o.bookings, lead));
    PerformExtends(o.table, WithStudents(env.base, picked.students),
                   CreateCommand(picked.people.student, env.sessions[session].class_, Trial, None));
    TableExtended(o, o'.table);
    var b := o'.bookings[|o.bookings|];
    assert o'.bookings == o.bookings + [b];
    forall x | x in o'.bookings ensures BookingKnown(o', x) {
      if x != b { assert BookingKnown(o.(table := o'.table), x); }
    }
    forall id | id in o'.leads ensures LeadAgrees(o', id) {
      if id == lead {
        assert o'.bookings[|o.bookings|].lead == lead;
      } else {
        assert LeadAgrees(o.(table := o'.table), id);
        BookedElsewhere(o.bookings, b, id);
      }
    }
  }

  /** What booking a trial leaves: a new TRIAL enrollment of the student in the session's class, a
      booked booking that ties it to the lead, and the lead moved; nothing that existed changes. */
  lemma BookEnrolls(o: Office, env: CrmEnv, lead: Id, session: Id, choice: Choice)
    requires Book(o, env, lead, session, choice).Ok?
    ensures var o' := Book(o, env, lead, session, choice).office;
            var b, e := o'.bookings[|o.bookings|], |o.table.rows|;
            && o'.bookings == o.bookings + [b] && o'.table.rows == o.table.rows + [o'.table.rows[e]]
            && o.leads[lead].status == Qualified && !HasBooked(o.bookings, lead)
            && o'.leads == o.leads[lead := o.leads[lead].(status := TrialBooked)]
            && b.lead == lead && b.session == session && b.enrollment == e && b.status == Booked && b.verdict.None?
            && session in env.sessions && env.sessions[session].scheduled && env.sessions[session].date >= env.today
            && o'.table.rows[e].student == b.student && o'.table.rows[e].status == Trial
            && o'.table.rows[e].class_ == env.sessions[session].class_
            && !PairTaken(o.table.rows, b.student, env.sessions[session].class_)
  {
  }

  /** Cancelling undoes booking: the lead qualified again, the booking cancelled, the trial
      withdrawn, and the lead free to book once more. */
  lemma CancelUndoesTrial(o: Office, env: CrmEnv, lead: Id, session: Id, choice: Choice, later: CrmEnv)
    requires Consistent(o) && Book(o, env, lead, session, choice).Ok?
    ensures var booked := Book(o, env, lead, session, choice).office;
            var b, e, r := booked.bookings[|o.bookings|], |o.table.rows|, CancelTrial(booked, later, |o.bookings|);
            && r.Ok? && r.office.leads == o.leads
            && r.office.bookings == o.bookings + [b.(status := BookingCancelled)]
            && r.office.table.rows == o.table.rows
               + [booked.table.rows[e].(status := Withdrawn, endedAt := Some(later.base.now))]
            && !HasBooked(r.office.bookings, lead)
  {
    BookConsistent(o, env, lead, session, choice);
    BookEnrolls(o, env, lead, session, choice);
    var booked := Book(o, env, lead, session, choice).office;
    var b := booked.bookings[|o.bookings|];
    DropWorks(booked, later, |o.bookings|);
    BookedAfter(booked.bookings, |o.bookings|, b.(status := BookingCancelled), lead);
    assert booked.bookings[|o.bookings| := b.(status := BookingCancelled)]
           == o.bookings + [b.(status := BookingCancelled)];
  }

  lemma BookedElsewhere(bookings: seq<Booking>, b: Booking, id: Id)
    requires b.lead != id
    ensures HasBooked(bookings + [b], id) <==> HasBooked(bookings, id)
  {
    if HasBooked(bookings, id) {
      var k :| 0 <= k < |bookings| && bookings[k].lead == id && bookings[k].status == Booked;
      assert (bookings + [b])[k] == bookings[k];
    }
  }

  // ---------- a booking that ends ----------

  lemma BookedAfter(bookings: seq<Booking>, k: nat, b: Booking, id: Id)
    requires k < |bookings| && OneBooked(bookings)
    requires bookings[k].status == Booked && b.status != Booked && b.lead == bookings[k].lead
    ensures HasBooked(bookings[k := b], id) <==> HasBooked(bookings, id) && id != b.lead
  {
    if HasBooked(bookings, id) && id != b.lead {
      var j :| 0 <= j < |bookings| && bookings[j].lead == id && bookings[j].status == Booked;
      assert bookings[k := b][j] == bookings[j];
    }
  }

  ghost predicate EndsBooking(o: Office, k: nat, b: Booking, id: Id, lead: Lead)
    requires k < |o.bookings|
  {
    && o.bookings[k].status == Booked && b.status != Booked && id == o.bookings[k].lead
    && b == o.bookings[k].(status := b.status, verdict := b.verdict)
    && lead.status != TrialBooked
    && (lead.status == Won ==> id in o.leads && o.leads[id] == lead)
  }

  /** A booked trial ended, and its lead moved off TRIAL_BOOKED if it was there. */
  lemma BookingEnded(o: Office, k: nat, b: Booking, id: Id, lead: Lead)
    requires Consistent(o) && k < |o.bookings| && EndsBooking(o, k, b, id, lead)
    requires b.status == BookingCancelled
             ==> b.enrollment < |o.table.rows| && o.table.rows[b.enrollment].status != Trial
    ensures Consistent(SetLead(o, id, lead).(bookings := o.bookings[k := b]))
  {
    var o' := SetLead(o, id, lead).(bookings := o.bookings[k := b]);
    assert o.bookings[k] in o.bookings;
    forall x | x in o'.bookings ensures BookingKnown(o', x) {
      if x != b { assert BookingKnown(o, x); }
    }
    forall x | x in o'.leads ensures LeadAgrees(o', x) {
      BookedAfter(o.bookings, k, b, x);
      if x in o.leads { assert LeadAgrees(o, x); }
    }
  }

  /** Dropping a booked trial always succeeds, and leaves its enrollment no trial. */
  lemma DropWorks(o: Office, env: CrmEnv, k: nat)
    requires BookingsKnown(o) && k < |o.bookings|
    ensures var r := DropBooking(o, env, k, o.table.rows);
            && r.Ok? && Extends(o.table, r.office.table) && r.office.leads == o.leads
            && r.office.bookings == o.bookings[k := o.bookings[k].(status := BookingCancelled)]
            && o.bookings[k].enrollment < |r.office.table.rows|
            && r.office.table.rows[o.bookings[k].enrollment].status != Trial
  {
    var b := o.bookings[k];
    assert b in o.bookings;
    TransitionExtends(o.table, env.base, b.enrollment, Withdraw, None);
  }

  lemma CancelConsistent(o: Office, env: CrmEnv, k: nat)
    requires Consistent(o) && CancelTrial(o, env, k).Ok?
    ensures Consistent(CancelTrial(o, env, k).office)
  {
    DropWorks(o, env, k);
    var id, table := o.bookings[k].lead, DropBooking(o, env, k, o.table.rows).office.table;
    var lead := if o.leads[id].status == TrialBooked then o.leads[id].(status := Qualified) else o.leads[id];
    TableExtended(o, table);
    BookingEnded(o.(table := table), k, o.bookings[k].(status := BookingCancelled), id, lead);
    assert o.leads[id := o.leads[id]] == o.leads;
  }

  lemma OutcomeConsistent(o: Office, env: CrmEnv, k: nat, verdict: Verdict, lostReason: Option<nat>)
    requires Consistent(o) && RecordOutcome(o, env, k, verdict, lostReason).Ok?
    ensures Consistent(RecordOutcome(o, env, k, verdict, lostReason).office)
  {
    var o' := RecordOutcome(o, env, k, verdict, lostReason).office;
    var id := o.bookings[k].lead;
    BookingEnded(o, k, o'.bookings[k], id, o'.leads[id]);
  }

  // ---------- losing a lead ----------

  lemma NoneDropped(o: Office, env: CrmEnv, lead: Id, k: nat)
    requires k <= |o.bookings|
    requires forall j | k <= j < |o.bookings| :: o.bookings[j].lead != lead || o.bookings[j].status != Booked
    ensures DropAll(o, env, lead, k) == Ok(o)
    decreases |o.bookings| - k
  {
    if k < |o.bookings| { NoneDropped(o, env, lead, k + 1); }
  }

  /** The loop drops exactly the lead's one booked trial. */
  lemma {:induction false} OneDropped(o: Office, env: CrmEnv, lead: Id, i: nat, k: nat)
    requires OneBooked(o.bookings) && BookingsKnown(o)
    requires k <= i < |o.bookings| && o.bookings[i].lead == lead && o.bookings[i].status == Booked
    ensures DropAll(o, env, lead, k) == DropBooking(o, env, i, o.table.rows)
    decreases i - k
  {
    assert o.bookings[i] in o.bookings;
    if k == i {
      NoneDropped(o, env, lead, k + 1);
    } else {
      OneDropped(o, env, lead, i, k + 1);
      DropWorks(o, env, i);
    }
  }

  /** Once the lead may be lost, losing it cannot fail: every withdrawal in the loop is allowed. */
  lemma LostNeverFails(o: Office, env: CrmEnv, id: Id, reason: nat)
    requires Consistent(o) && id in o.leads
    ensures MarkLost(o, env, id, reason).Ok? <==> LeadAllowed(o.leads[id].status, Lost)
    ensures MarkLost(o, env, id, reason).Ok? ==>
      var o' := MarkLost(o, env, id, reason).office; Consistent(o') && Extends(o.table, o'.table)
  {
    if LeadAllowed(o.leads[id].status, Lost) {
      var lead := o.leads[id].(status := Lost, lostReason := Some(reason));
      var o1 := SetLead(o, id, lead);
      forall b | b in o1.bookings ensures BookingKnown(o1, b) { assert BookingKnown(o, b); }
      if i: nat :| i < |o.bookings| && o.bookings[i].lead == id && o.bookings[i].status == Booked {
        OneDropped(o1, env, id, i, 0);
        DropWorks(o1, env, i);
        var table := DropBooking(o1, env, i, o1.table.rows).office.table;
        TableExtended(o, table);
        BookingEnded(o.(table := table), i, o.bookings[i].(status := BookingCancelled), id, lead);
      } else {
        NoneDropped(o1, env, id, 0);
        LeadSet(o, id, lead);
      }
    }
  }

  // ---------- conversion ----------

  lemma EnrollIntoExtends(t: Table, env: Env, trial: Option<Id>, student: Id, class_: Id)
    requires trial.Some? ==> trial.value < |t.rows|
    requires EnrollInto(t, env, trial, student, class_).InClass?
    ensures Extends(t, EnrollInto(t, env, trial, student, class_).table)
  {
    match trial
    case Some(id) =>
      if t.rows[id].class_ == class_ {
        TransitionExtends(t, env, id, Activate, None);
      } else {
        TransitionExtends(t, env, id, Withdraw, None);
        var t1 := Transition(t, env, id, Withdraw, None).table;
        PerformExtends(t1, env, ReenrollCommand(id, student, class_, Active, None));
        ExtendsTransitive(t, t1, EnrollInto(t, env, trial, student, class_).table);
      }
    case None => PerformExtends(t, env, CreateCommand(student, class_, Active, None));
  }

  /** All three modes of conversion end with an active enrollment of the converted student in the
      chosen class; a trial in another class is withdrawn and is where the new one comes from. */
  lemma ConversionEnrolls(o: Office, env: CrmEnv, id: Id, choice: Choice, class_: Id)
    requires Consistent(o) && Convert(o, env, id, choice, class_).Converted?
    ensures var r := Convert(o, env, id, choice, class_);
            var lead, rows, e := r.office.leads[id], r.office.table.rows, r.enrollment;
            && lead.status == Won && lead.enrollment == Some(e) && lead.student.Some? && e < |rows|
            && rows[e].status == Active && rows[e].student == lead.student.value && rows[e].class_ == class_
            && (r.mode == TrialPromoted <==> e < |o.table.rows|)
            && (r.mode == TrialPromoted ==> o.table.rows[e].status == Trial)
            && (r.mode == Direct ==> rows[e].source.None?)
            && (r.mode == TrialReenrolled ==>
                  rows[e].source.Some? && rows[e].source.value < |o.table.rows|
                  && o.table.rows[rows[e].source.value].status == Trial
                     && rows[rows[e].source.value].status == Withdrawn)
    ensures Extends(o.table, Convert(o, env, id, choice, class_).office.table)
    ensures Consistent(Convert(o, env, id, choice, class_).office)
  {
    var r := Convert(o, env, id, choice, class_);
    var picked := Ensure(env, o.leads[id], choice, TrialDefaults(o.bookings, id));
    var trial := OpenTrial(o.bookings, o.table.rows, id, picked.people.student);
    var base := WithStudents(env.base, picked.students);
    EnrollIntoExtends(o.table, base, trial, picked.people.student, class_);
    TableExtended(o, r.office.table);
    LeadSet(o.(table := r.office.table), id, r.office.leads[id]);
  }

  // ---------- every command, every run ----------

  /** A step moves a lead only along the transition table, whether or not it consults it. */
  ghost predicate LeadsMove(before: Office, after: Office) {
    forall id | id in before.leads ::
      && id in after.leads
      && (after.leads[id] != before.leads[id] ==> LeadAllowed(before.leads[id].status, after.leads[id].status))
  }

  lemma StepConsistent(o: Office, env: CrmEnv, c: CrmCommand)
    requires Consistent(o) && Accepted(c)
    ensures Consistent(Step(o, env, c)) && Extends(o.table, Step(o, env, c).table)
  {
    if Try(o, env, c).Ok? {
      match c
      case EnrollmentCommand(command) =>
        PerformExtends(o.table, env.base, command);
        TableExtended(o, Perform(o.table, env.base, command).table);
      case CreateLeadCommand(id, namesGuardian) => CreateLeadConsistent(o, id, namesGuardian);
      case ContactCommand(id) => SimpleConsistent(o, id, Contacted);
      case QualifyCommand(id) => SimpleConsistent(o, id, Qualified);
      case BookCommand(id, session, choice) =>
        BookConsistent(o, env, id, session, choice);
        var picked := Ensure(env, o.leads[id], choice, TrialDefaults(o.bookings, id));
        PerformExtends(o.table, WithStudents(env.base, picked.students),
                       CreateCommand(picked.people.student, env.sessions[session].class_, Trial, None));
      case CancelCommand(k) =>
        CancelConsistent(o, env, k);
        DropWorks(o, env, k);
      case OutcomeCommand(k, verdict, lostReason) => OutcomeConsistent(o, env, k, verdict, lostReason);
      case LostCommand(id, reason) => LostNeverFails(o, env, id, reason);
      case ConvertCommand(id, choice, class_) => ConversionEnrolls(o, env, id, choice, class_);
    }
  }

  lemma StepMovesLeads(o: Office, env: CrmEnv, c: CrmCommand)
    requires Consistent(o) && Accepted(c)
    ensures LeadsMove(o, Step(o, env, c))
  {
    match c
    case CancelCommand(k) => if k < |o.bookings| { DropWorks(o, env, k); }
    case LostCommand(id, reason) => if MarkLost(o, env, id, reason).Ok? { LostMovesLeads(o, env, id, reason); }
    case _ =>
  }

  lemma LostMovesLeads(o: Office, env: CrmEnv, id: Id, reason: nat)
    requires Consistent(o) && id in o.leads && MarkLost(o, env, id, reason).Ok?
    ensures MarkLost(o, env, id, reason).office.leads
            == o.leads[id := o.leads[id].(status := Lost, lostReason := Some(reason))]
  {
    var o1 := SetLead(o, id, o.leads[id].(status := Lost, lostReason := Some(reason)));
    forall b | b in o1.bookings ensures BookingKnown(o1, b) { assert BookingKnown(o, b); }
    if i: nat :| i < |o.bookings| && o.bookings[i].lead == id && o.bookings[i].status == Booked {
      OneDropped(o1, env, id, i, 0);
      DropWorks(o1, env, i);
    } else {
      NoneDropped(o1, env, id, 0);
    }
  }

  lemma EnrollIntoSound(t: Table, env: Env, trial: Option<Id>, student: Id, class_: Id)
    requires Sound(t, env.classes) && (trial.Some? ==> trial.value < |t.rows|)
    requires EnrollInto(t, env, trial, student, class_).InClass?
    ensures Sound(EnrollInto(t, env, trial, student, class_).table, env.classes)
  {
    match trial
    case Some(id) =>
      if t.rows[id].class_ == class_ {
        TransitionSound(t, env, id, Activate, None);
      } else {
        TransitionSound(t, env, id, Withdraw, None);
        ReenrollSound(Transition(t, env, id, Withdraw, None).table, env, id, student, class_, Active, None);
      }
    case None => CreateSound(t, env, student, class_, Active, None);
  }

  /** CRM commands drive the enrollment tables only through steps that keep them sound. */
  lemma StepSound(o: Office, env: CrmEnv, c: CrmCommand)
    requires Consistent(o) && Sound(o.table, env.base.classes) && Accepted(c)
    ensures Sound(Step(o, env, c).table, env.base.classes)
  {
    if Try(o, env, c).Ok? {
      match c
      case EnrollmentCommand(command) => PerformSound(o.table, env.base, command);
      case BookCommand(id, session, choice) =>
        var picked := Ensure(env, o.leads[id], choice, TrialDefaults(o.bookings, id));
        CreateSound(o.table, WithStudents(env.base, picked.students), picked.people.student,
                    env.sessions[session].class_, Trial, None);
      case CancelCommand(k) => TransitionSound(o.table, env.base, o.bookings[k].enrollment, Withdraw, None);
      case LostCommand(id, reason) => LostSound(o, env, id, reason);
      case ConvertCommand(id, choice, class_) =>
        var picked := Ensure(env, o.leads[id], choice, TrialDefaults(o.bookings, id));
        var trial := OpenTrial(o.bookings, o.table.rows, id, picked.people.student);
        EnrollIntoSound(o.table, WithStudents(env.base, picked.students), trial, picked.people.student, class_);
      case _ =>
    }
  }

  lemma LostSound(o: Office, env: CrmEnv, id: Id, reason: nat)
    requires Consistent(o) && Sound(o.table, env.base.classes) && id in o.leads && MarkLost(o, env, id, reason).Ok?
    ensures Sound(MarkLost(o, env, id, reason).office.table, env.base.classes)
  {
    var o1 := SetLead(o, id, o.leads[id].(status := Lost, lostReason := Some(reason)));
    forall b | b in o1.bookings ensures BookingKnown(o1, b) { assert BookingKnown(o, b); }
    if i: nat :| i < |o.bookings| && o.bookings[i].lead == id && o.bookings[i].status == Booked {
      OneDropped(o1, env, id, i, 0);
      DropWorks(o1, env, i);
      TransitionSound(o.table, env.base, o.bookings[i].enrollment, Withdraw, None);
    } else {
      NoneDropped(o1, env, id, 0);
    }
  }

  datatype Call = Call(env: CrmEnv, command: CrmCommand)

  function Opening(): Office {
    Office(Table([], []), map[], [])
  }

  function Run(calls: seq<Call>): Office
    requires forall c | c in calls :: Accepted(c.command)
  {
    if |calls| == 0 then Opening()
    else Step(Run(calls[..|calls| - 1]), calls[|calls| - 1].env, calls[|calls| - 1].command)
  }

  /** Requests pass validation, and between calls classes are kept and capacities not lowered. */
  ghost predicate Proper(calls: seq<Call>) {
    && (forall c | c in calls :: Accepted(c.command))
    && (forall i | 0 < i < |calls| :: Raised(calls[i - 1].env.base.classes, calls[i].env.base.classes))
  }

  /** In every reachable state the leads, trials and enrollments are consistent, and the
      enrollments sound under the classes of the latest call. */
  lemma {:induction false} RunSafe(calls: seq<Call>)
    requires Proper(calls)
    ensures Consistent(Run(calls))
    ensures |calls| != 0 ==> Sound(Run(calls).table, calls[|calls| - 1].env.base.classes)
  {
    if |calls| != 0 {
      var n := |calls| - 1;
      var before, call := Run(calls[..n]), calls[n];
      RunSafe(calls[..n]);
      if n == 0 {
        OpeningSound(call.env.base.classes);
      } else {
        SoundRaised(before.table, calls[n - 1].env.base.classes, call.env.base.classes);
      }
      StepConsistent(before, call.env, call.command);
      StepSound(before, call.env, call.command);
    }
  }

  lemma OpeningSound(classes: map<Id, Class>)
    ensures Sound(Opening().table, classes)
  {
    assert Fits([], classes);
  }

  lemma RunNext(calls: seq<Call>, m: nat)
    requires Proper(calls) && m < |calls|
    ensures Proper(calls[..m]) && Proper(calls[..m + 1])
    ensures Run(calls[..m + 1]) == Step(Run(calls[..m]), calls[m].env, calls[m].command)
  {
    assert calls[..m + 1][..m] == calls[..m];
  }

  lemma ProperPrefix(calls: seq<Call>, k: nat)
    requires Proper(calls) && k <= |calls|
    ensures Proper(calls[..k])
  {}

  predicate Final(lead: Lead) {
    lead.status == Won || lead.status == Lost
  }

  /** What time leaves alone: terminal enrollments and told history, and leads once final. */
  ghost predicate Onward(before: Office, after: Office) {
    && Extends(before.table, after.table)
    && (forall id | id in before.leads ::
        id in after.leads && (Final(before.leads[id]) ==> after.leads[id] == before.leads[id]))
  }

  lemma OnwardSame(o: Office)
    ensures Onward(o, o)
  {}

  lemma OnwardTransitive(a: Office, b: Office, c: Office)
    requires Onward(a, b) && Onward(b, c)
    ensures Onward(a, c)
  {
    ExtendsTransitive(a.table, b.table, c.table);
  }

  lemma StepOnward(o: Office, env: CrmEnv, c: CrmCommand)
    requires Consistent(o) && Accepted(c)
    ensures Onward(o, Step(o, env, c))
  {
    StepConsistent(o, env, c);
    StepMovesLeads(o, env, c);
  }

  /** The office after the first k calls. */
  ghost function At(calls: seq<Call>, k: nat): Office
    requires Proper(calls) && k <= |calls|
  {
    ProperPrefix(calls, k);
    Run(calls[..k])
  }

  lemma NextOnward(calls: seq<Call>, m: nat)
    requires Proper(calls) && m < |calls|
    ensures Onward(At(calls, m), At(calls, m + 1))
  {
    RunNext(calls, m);
    RunSafe(calls[..m]);
    StepOnward(Run(calls[..m]), calls[m].env, calls[m].command);
  }

  /** From any moment of a run on: terminal enrollments never change, no history is rewritten,
      and a WON or LOST lead stays exactly as it was. */
  lemma {:induction false} FinalForever(calls: seq<Call>, k: nat, m: nat)
    requires Proper(calls) && k <= m <= |calls|
    ensures Onward(At(calls, k), At(calls, m))
  {
    if k == m {
      OnwardSame(At(calls, k));
    } else {
      FinalForever(calls, k, m - 1);
      NextOnward(calls, m - 1);
      OnwardTransitive(At(calls, k), At(calls, m - 1), At(calls, m));
    }
  }

  /** In every reachable state a lead has at most one booked trial, TRIAL_BOOKED means exactly
      one, LOST means none, and the enrollment of a cancelled trial is not a trial any more. */
  lemma TrialsTold(calls: seq<Call>, id: Id)
    requires Proper(calls) && id in Run(calls).leads
    ensures var o := Run(calls);
            && (forall i, j | 0 <= i < |o.bookings| && 0 <= j < |o.bookings| ::
                  IsBooked(o, i, id) && IsBooked(o, j, id) ==> i == j)
            && (o.leads[id].status == TrialBooked ==> exists k | 0 <= k < |o.bookings| :: IsBooked(o, k, id))
            && (o.leads[id].status == Lost ==> forall k | 0 <= k < |o.bookings| :: !IsBooked(o, k, id))
            && (forall b | b in o.bookings && b.status == BookingCancelled ::
                  b.enrollment < |o.table.rows| && o.table.rows[b.enrollment].status != Trial)
  {
    RunSafe(calls);
    var o := Run(calls);
    assert LeadAgrees(o, id);
    forall b | b in o.bookings ensures BookingKnown(o, b) {}
    if o.leads[id].status == TrialBooked {
      var k :| 0 <= k < |o.bookings| && o.bookings[k].lead == id && o.bookings[k].status == Booked;
      assert IsBooked(o, k, id);
    }
  }

  predicate IsBooked(o: Office, k: nat, id: Id)
    requires k < |o.bookings|
  {
    o.bookings[k].lead == id && o.bookings[k].status == Booked
  }
}

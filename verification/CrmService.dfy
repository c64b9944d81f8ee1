/** The CRM services: transactions over leads, bookings and, through the enrollment service,
    enrollments, rolled back as a whole when a step fails. */
module CrmServices {
  import opened Collections
  import opened Enrollments
  import opened EnrollmentServices
  import opened Crm
  import opened Marks
  import opened CrmSafety
  import opened EnrollmentSafety

  datatype CrmReply = Committed | RolledBack(error: Error)

  predicate Applies(before: Office, r: Result, reply: CrmReply, after: Office) {
    match r
    case Ok(office) => reply == Committed && after == office
    case Err(error) => reply == RolledBack(error) && after == before
  }

  /** A transaction that applies its command is a step of the joint machine, so it keeps leads,
      trials and enrollments consistent. */
  lemma AppliedConsistent(before: Office, env: CrmEnv, c: CrmCommand, reply: CrmReply, after: Office)
    requires Accepted(c) && Consistent(before) && Applies(before, Try(before, env, c), reply, after)
    ensures after == Step(before, env, c) && Consistent(after) && Extends(before.table, after.table)
  {
    StepConsistent(before, env, c);
  }

  class CrmService {
    var leads: map<Id, Lead>
    var bookings: seq<Booking>
    const enrollments: EnrollmentService

    constructor (enrollments: EnrollmentService)
      ensures this.enrollments == enrollments && leads == map[] && bookings == []
    {
      this.enrollments := enrollments;
      leads, bookings := map[], [];
    }

    function Contents(): Office
      reads this, enrollments
    {
      Office(enrollments.Contents(), leads, bookings)
    }

    /** ROLLBACK */
    method Restore(o: Office)
      modifies this, enrollments
      ensures Contents() == o
    {
      leads, bookings := o.leads, o.bookings;
      enrollments.rows, enrollments.events := o.table.rows, o.table.events;
    }

    method Create(id: Id, namesGuardian: bool) returns (reply: CrmReply)
      modifies this
      ensures Applies(old(Contents()), CreateLead(old(Contents()), id, namesGuardian), reply, Contents())
    {
      if id in leads { return RolledBack(Conflict); }
      leads := leads[id := Lead(New, namesGuardian, None, None, None, None)];
      reply := Committed;
    }

    method Contact(id: Id) returns (reply: CrmReply)
      modifies this
      ensures Applies(old(Contents()), SimpleTransition(old(Contents()), id, Contacted), reply, Contents())
    {
      reply := MoveLead(id, Contacted);
    }

    method Qualify(id: Id) returns (reply: CrmReply)
      modifies this
      ensures Applies(old(Contents()), SimpleTransition(old(Contents()), id, Qualified), reply, Contents())
    {
      reply := MoveLead(id, Qualified);
    }

    method MoveLead(id: Id, to: LeadStatus) returns (reply: CrmReply)
      modifies this
      ensures Applies(old(Contents()), SimpleTransition(old(Contents()), id, to), reply, Contents())
    {
      if id !in leads { return RolledBack(NotFound); }
      if !LeadAllowed(leads[id].status, to) { return RolledBack(Conflict); }
      leads := leads[id := leads[id].(status := to)];
      reply := Committed;
    }

    method BookTrial(env: CrmEnv, lead: Id, session: Id, choice: Choice) returns (reply: CrmReply)
      modifies this, enrollments
      ensures Applies(old(Contents()), Book(old(Contents()), env, lead, session, choice), reply, Contents())
    {
      if lead !in leads { return RolledBack(NotFound); }
      if leads[lead].status != Qualified { return RolledBack(Conflict); }
      if HasBooked(bookings, lead) { return RolledBack(Conflict); }
      var error := SessionError(env, session);
      if error.Some? { return RolledBack(error.value); }
      var picked := Ensure(env, leads[lead], choice, TrialDefaults(bookings, lead));
      if picked.Refused? { return RolledBack(picked.error); }
      var people := picked.people;
      var class_ := env.sessions[session].class_;
      var made := enrollments.CreateInTransaction(WithStudents(env.base, picked.students), people.student, class_,
                                                  Trial, None);
      if made.Rejected? { return RolledBack(made.error); }
      bookings := bookings + [Booking(lead, session, people.student, people.guardian, made.id, Booked, None)];
      leads := leads[lead := leads[lead].(status := TrialBooked)];
      reply := Committed;
    }

    method CancelBooking(env: CrmEnv, k: nat) returns (reply: CrmReply)
      modifies this, enrollments
      ensures Applies(old(Contents()), CancelTrial(old(Contents()), env, k), reply, Contents())
    {
      ghost var before := Contents();
      if k >= |bookings| { return RolledBack(NotFound); }
      var b := bookings[k];
      if b.status != Booked { return RolledBack(Conflict); }
      if b.lead !in leads { return RolledBack(NotFound); }
      var saved := Contents();
      bookings := bookings[k := b.(status := BookingCancelled)];
      if b.enrollment < |enrollments.rows| && enrollments.rows[b.enrollment].status == Trial {
        var moved := enrollments.TransitionInTransaction(env.base, b.enrollment, Withdraw, None);
        if moved.Rejected? {
          Restore(saved);
          return RolledBack(moved.error);
        }
      }
      if leads[b.lead].status == TrialBooked {
        leads := leads[b.lead := leads[b.lead].(status := Qualified)];
      }
      reply := Committed;
    }

    method TrialOutcome(env: CrmEnv, k: nat, verdict: Verdict, lostReason: Option<nat>) returns (reply: CrmReply)
      modifies this
      ensures Applies(old(Contents()), RecordOutcome(old(Contents()), env, k, verdict, lostReason), reply, Contents())
    {
      if k >= |bookings| { return RolledBack(NotFound); }
      var b := bookings[k];
      if b.status != Booked { return RolledBack(Conflict); }
      if b.lead !in leads { return RolledBack(NotFound); }
      var lead := leads[b.lead];
      if b.session !in env.locked || (b.session, b.student) !in env.marks { return RolledBack(Conflict); }
      var mark := env.marks[(b.session, b.student)];
      if mark == Unmarked { return RolledBack(Conflict); }
      var to := TrialCompleted;
      if verdict == FollowUp { to := Qualified; }
      if verdict == GivesUp {
        to := Lost;
        if lostReason.None? { return RolledBack(BadRequest); }
      }
      if !LeadAllowed(lead.status, to) { return RolledBack(Conflict); }
      bookings := bookings[k := b.(status := if AttendedBy(mark) then Attended else NoShow, verdict := Some(verdict))];
      if to == Lost {
        leads := leads[b.lead := lead.(status := Lost, lostReason := lostReason)];
      } else {
        leads := leads[b.lead := lead.(status := to)];
      }
      reply := Committed;
    }

    /** The cancellation loop of lost, over the statuses read before it. */
    method LoseLead(env: CrmEnv, id: Id, reason: nat) returns (reply: CrmReply)
      modifies this, enrollments
      ensures Applies(old(Contents()), MarkLost(old(Contents()), env, id, reason), reply, Contents())
    {
      if id !in leads { return RolledBack(NotFound); }
      if !LeadAllowed(leads[id].status, Lost) { return RolledBack(Conflict); }
      var saved := Contents();
      leads := leads[id := leads[id].(status := Lost, lostReason := Some(reason))];
      var active, read := bookings, enrollments.rows;
      ghost var o := Contents();
      var k: nat := |active|;
      while k > 0
        invariant k <= |active| && |bookings| == |active|
        invariant o.bookings == active && o.table.rows == read
        invariant DropAll(o, env, id, k) == Ok(Contents())
      {
        k := k - 1;
        var b := active[k];
        if b.lead == id && b.status == Booked && b.enrollment < |read| {
          DropKeepsOthers(o, env, id, k + 1);
          bookings := bookings[k := b.(status := BookingCancelled)];
          if read[b.enrollment].status == Trial {
            var moved := enrollments.TransitionInTransaction(env.base, b.enrollment, Withdraw, None);
            if moved.Rejected? {
              FailsOn(o, env, id, k);
              Restore(saved);
              return RolledBack(moved.error);
            }
          }
        }
      }
      reply := Committed;
    }

    method ConvertLead(env: CrmEnv, id: Id, choice: Choice, class_: Id)
      returns (reply: CrmReply, enrollment: Id, mode: Mode)
      modifies this, enrollments
      ensures match Convert(old(Contents()), env, id, choice, class_)
              case Converted(office, e, m) => reply == Committed && enrollment == e && mode == m && Contents() == office
              case NotConverted(error) => reply == RolledBack(error) && Contents() == old(Contents())
    {
      enrollment, mode := 0, Direct;
      if id !in leads { reply := RolledBack(NotFound); return; }
      if leads[id].status != Qualified && leads[id].status != TrialCompleted { reply := RolledBack(Conflict); return; }
      var picked := Ensure(env, leads[id], choice, TrialDefaults(bookings, id));
      if picked.Refused? { reply := RolledBack(picked.error); return; }
      var student, base := picked.people.student, WithStudents(env.base, picked.students);
      var saved := Contents();
      var trial := OpenTrial(bookings, enrollments.rows, id, student);
      var last: Reply;
      if trial.Some? && enrollments.rows[trial.value].class_ == class_ {
        last := enrollments.TransitionInTransaction(base, trial.value, Activate, None);
        mode := TrialPromoted;
      } else if trial.Some? {
        last := enrollments.TransitionInTransaction(base, trial.value, Withdraw, None);
        if last.Replied? {
          last := enrollments.ReenrollInTransaction(base, trial.value, student, class_, Active, None);
        }
        mode := TrialReenrolled;
      } else {
        last := enrollments.CreateInTransaction(base, student, class_, Active, None);
        mode := Direct;
      }
      if last.Rejected? {
        Restore(saved);
        reply := RolledBack(last.error);
        return;
      }
      enrollment := last.id;
      leads := leads[id := leads[id].(status := Won, student := Some(student), guardian := picked.people.guardian,
                                      enrollment := Some(enrollment))];
      reply := Committed;
    }
  }

  /** What the loop has not reached yet is as it was. */
  lemma {:induction false} DropKeepsOthers(o: Office, env: CrmEnv, lead: Id, k: nat)
    requires k <= |o.bookings| && DropAll(o, env, lead, k).Ok?
    ensures var o' := DropAll(o, env, lead, k).office;
            |o'.bookings| == |o.bookings| && forall j | 0 <= j < k :: o'.bookings[j] == o.bookings[j]
    decreases |o.bookings| - k
  {
    if k < |o.bookings| { DropKeepsOthers(o, env, lead, k + 1); }
  }

  /** A failing step of the loop fails the whole. */
  lemma {:induction false} FailsOn(o: Office, env: CrmEnv, lead: Id, k: nat)
    requires k <= |o.bookings| && DropAll(o, env, lead, k).Err?
    ensures DropAll(o, env, lead, 0) == DropAll(o, env, lead, k)
  {
    if k != 0 { FailsOn(o, env, lead, k - 1); }
  }
}

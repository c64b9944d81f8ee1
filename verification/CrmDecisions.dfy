/** When each CRM command is accepted and what it leaves, in terms of leads, bookings and enrollments. */
module CrmDecisions {
  import opened Collections
  import opened Enrollments
  import opened Marks
  import opened Crm
  import opened CrmSafety
  import opened EnrollmentSafety
  import ED = EnrollmentDecisions

  // ---------- leads ----------

  /** A lead is contacted exactly when new, and qualified exactly before a decision: when new, contacted,
      or on or after a trial. */
  lemma MovedExactly(o: Office, env: CrmEnv, id: Id)
    ensures Try(o, env, ContactCommand(id)).Ok? <==> id in o.leads && o.leads[id].status == New
    ensures Try(o, env, QualifyCommand(id)).Ok?
            <==> id in o.leads && o.leads[id].status in {New, Contacted, TrialBooked, TrialCompleted}
    ensures Try(o, env, ContactCommand(id)).Ok? ==>
              Step(o, env, ContactCommand(id)) == o.(leads := o.leads[id := o.leads[id].(status := Contacted)])
    ensures Try(o, env, QualifyCommand(id)).Ok? ==>
              Step(o, env, QualifyCommand(id)) == o.(leads := o.leads[id := o.leads[id].(status := Qualified)])
    ensures id !in o.leads ==>
              Try(o, env, ContactCommand(id)) == Try(o, env, QualifyCommand(id)) == Err(NotFound)
  {}

  // ---------- student and guardian ----------

  /** The k-th booking is the lead's latest. */
  ghost predicate Latest(bookings: seq<Booking>, lead: Id, k: nat) {
    k < |bookings| && bookings[k].lead == lead && forall j | k < j < |bookings| :: bookings[j].lead != lead
  }

  lemma {:induction false} DefaultsExactly(bookings: seq<Booking>, lead: Id)
    ensures forall p :: TrialDefaults(bookings, lead) == Some(p)
              <==> exists k: nat :: Latest(bookings, lead, k) && p == People(bookings[k].student, bookings[k].guardian)
    ensures TrialDefaults(bookings, lead).None? <==> forall k: nat :: !Latest(bookings, lead, k)
  {
    if |bookings| != 0 {
      var n := |bookings| - 1;
      if bookings[n].lead == lead {
        assert Latest(bookings, lead, n);
        forall k: nat | Latest(bookings, lead, k) ensures k == n {}
      } else {
        DefaultsExactly(bookings[..n], lead);
        forall k: nat ensures Latest(bookings, lead, k) <==> Latest(bookings[..n], lead, k) {
          LatestOfFront(bookings, lead, k);
        }
        assert forall k: nat | Latest(bookings, lead, k) :: bookings[k] == bookings[..n][k];
      }
    }
  }

  lemma LatestOfFront(bookings: seq<Booking>, lead: Id, k: nat)
    requires |bookings| != 0 && bookings[|bookings| - 1].lead != lead
    ensures Latest(bookings, lead, k) <==> Latest(bookings[..|bookings| - 1], lead, k)
  {
    var n := |bookings| - 1;
    if Latest(bookings[..n], lead, k) {
      forall j | k < j < |bookings| ensures bookings[j].lead != lead {
        if j < n { assert bookings[..n][j] == bookings[j]; }
      }
    }
  }

  /** The student is the one given, known; or a new one where one could be created; or, without either, the
      one of the lead's latest trial. The guardian is the one given, known; or a new one from the lead's
      own details; or, without either, the latest trial's, if there was one. */
  ghost predicate Picks(o: Office, env: CrmEnv, id: Id, choice: Choice, p: People, students: map<Id, bool>)
    requires id in o.leads
  {
    && (if choice.student.Some? then
          !choice.createStudent && choice.student.value in env.base.students && p.student == choice.student.value
          && students == env.base.students
        else if choice.createStudent then
          env.newStudent.Some? && p.student == env.newStudent.value
          && students == env.base.students[env.newStudent.value := true]
        else
          students == env.base.students
          && exists k: nat :: Latest(o.bookings, id, k) && p.student == o.bookings[k].student)
    && (if choice.guardian.Some? then choice.guardian.value in env.guardians && p.guardian == choice.guardian
        else if choice.createGuardian then o.leads[id].namesGuardian && p.guardian == Some(env.newGuardian)
        else
          && (forall k: nat | Latest(o.bookings, id, k) :: p.guardian == o.bookings[k].guardian)
          && ((forall k: nat :: !Latest(o.bookings, id, k)) ==> p.guardian.None?))
  }

  lemma PicksExactly(o: Office, env: CrmEnv, id: Id, choice: Choice)
    requires id in o.leads
    ensures forall p, students ::
              Ensure(env, o.leads[id], choice, TrialDefaults(o.bookings, id)) == Picked(p, students)
              <==> Picks(o, env, id, choice, p, students)
  {
    DefaultsExactly(o.bookings, id);
    forall p, students
      ensures Ensure(env, o.leads[id], choice, TrialDefaults(o.bookings, id)) == Picked(p, students)
              <==> Picks(o, env, id, choice, p, students)
    {
      var latest := TrialDefaults(o.bookings, id);
      if latest.Some? {
        var k: nat :| Latest(o.bookings, id, k)
                      && latest.value == People(o.bookings[k].student, o.bookings[k].guardian);
        forall j: nat | Latest(o.bookings, id, j) ensures j == k {}
      }
    }
  }

  // ---------- trials ----------

  /** A scheduled session, today or later, of a known and active class. */
  ghost predicate Bookable(env: CrmEnv, session: Id) {
    && session in env.sessions && env.sessions[session].scheduled && env.today <= env.sessions[session].date
    && env.sessions[session].class_ in env.base.classes && env.base.classes[env.sessions[session].class_].active
  }

  ghost predicate CanTry(o: Office, env: CrmEnv, id: Id, session: Id, choice: Choice, p: People,
                         students: map<Id, bool>)
    requires id in o.leads && session in env.sessions
  {
    && Picks(o, env, id, choice, p, students)
    && ED.Enrollable(o.table, env.base.(students := students), p.student, env.sessions[session].class_, true)
  }

  /** A trial is booked exactly for a qualified lead without a booked one, in a bookable session, when the
      student picked can be enrolled in its class. */
  lemma BookedExactly(o: Office, env: CrmEnv, id: Id, session: Id, choice: Choice)
    ensures Try(o, env, BookCommand(id, session, choice)).Ok?
            <==> && id in o.leads && o.leads[id].status == Qualified
                 && (forall b | b in o.bookings && b.lead == id :: b.status != Booked)
                 && Bookable(env, session) && exists p, students :: CanTry(o, env, id, session, choice, p, students)
  {
    if id in o.leads && session in env.sessions {
      var picked := Ensure(env, o.leads[id], choice, TrialDefaults(o.bookings, id));
      PicksExactly(o, env, id, choice);
      forall p, students
        ensures CanTry(o, env, id, session, choice, p, students)
                <==> && picked == Picked(p, students)
                     && Create(o.table, WithStudents(env.base, students), p.student, env.sessions[session].class_,
                               Trial, None).Done?
      {
        ED.CreatedExactly(o.table, env.base.(students := students), p.student, env.sessions[session].class_, Trial,
                          None);
      }
      if picked.Picked? {
        assert CanTry(o, env, id, session, choice, picked.people, picked.students)
            <==> Create(o.table, WithStudents(env.base, picked.students), picked.people.student,
                        env.sessions[session].class_, Trial, None).Done?;
      }
    }
  }

  /** It leaves a trial enrollment and a booking of the people picked, and the lead with its trial booked. */
  lemma BookingWrites(o: Office, env: CrmEnv, id: Id, session: Id, choice: Choice)
    requires Try(o, env, BookCommand(id, session, choice)).Ok?
    ensures exists p, students :: CanTry(o, env, id, session, choice, p, students)
              && var o' := Step(o, env, BookCommand(id, session, choice));
                 && o'.table.rows == o.table.rows + [Enrollment(p.student, env.sessions[session].class_, Trial, None,
                                                                None, None, None)]
                 && o'.leads == o.leads[id := o.leads[id].(status := TrialBooked)]
                 && o'.bookings == o.bookings + [Booking(id, session, p.student, p.guardian, |o.table.rows|, Booked,
                                                         None)]
  {
    var picked := Ensure(env, o.leads[id], choice, TrialDefaults(o.bookings, id));
    PicksExactly(o, env, id, choice);
    ED.CreatedExactly(o.table, env.base.(students := picked.students), picked.people.student,
                      env.sessions[session].class_, Trial, None);
    assert CanTry(o, env, id, session, choice, picked.people, picked.students);
  }

  /** The enrollments once the k-th booking is dropped: its own withdrawn if it was still a trial. */
  function Withdrawing(o: Office, env: CrmEnv, k: nat): seq<Enrollment>
    requires k < |o.bookings| && o.bookings[k].enrollment < |o.table.rows|
  {
    var e := o.bookings[k].enrollment;
    if o.table.rows[e].status == Trial then
      o.table.rows[e := o.table.rows[e].(status := Withdrawn, pauseStartedAt := None, endedAt := Some(env.base.now))]
    else o.table.rows
  }

  lemma DropsExactly(o: Office, env: CrmEnv, k: nat)
    requires k < |o.bookings| && o.bookings[k].enrollment < |o.table.rows|
    ensures var r := DropBooking(o, env, k, o.table.rows);
            && r.Ok? && r.office.leads == o.leads && r.office.table.rows == Withdrawing(o, env, k)
            && r.office.bookings == o.bookings[k := o.bookings[k].(status := BookingCancelled)]
  {
    ED.TransitionedExactly(o.table, env.base, o.bookings[k].enrollment, Withdraw, None);
    if o.table.rows[o.bookings[k].enrollment].status == Trial {
      ED.TransitionWrites(o.table, env.base, o.bookings[k].enrollment, Withdraw, None);
    }
  }

  /** A trial is cancelled exactly while it is booked; the lead whose trial it was is qualified again. */
  lemma CancelledExactly(o: Office, env: CrmEnv, k: nat)
    requires Consistent(o)
    ensures Try(o, env, CancelCommand(k)).Ok? <==> k < |o.bookings| && o.bookings[k].status == Booked
    ensures Try(o, env, CancelCommand(k)).Ok? ==>
              && o.bookings[k].lead in o.leads && o.bookings[k].enrollment < |o.table.rows|
              && var o', id := Step(o, env, CancelCommand(k)), o.bookings[k].lead;
                 && o'.table.rows == Withdrawing(o, env, k)
                 && o'.bookings == o.bookings[k := o.bookings[k].(status := BookingCancelled)]
                 && o'.leads == if o.leads[id].status == TrialBooked
                                then o.leads[id := o.leads[id].(status := Qualified)] else o.leads
  {
    if k < |o.bookings| && o.bookings[k].status == Booked {
      assert o.bookings[k] in o.bookings;
      assert BookingKnown(o, o.bookings[k]);
      DropsExactly(o, env, k);
    }
  }

  /** An outcome is recorded exactly for a booked trial whose session's sheet is locked with a mark for its
      student, with a reason for losing the lead, from a lead status that leads there. The trial was
      attended if the mark is PRESENT, LATE or ONLINE, and missed otherwise. */
  lemma OutcomeExactly(o: Office, env: CrmEnv, k: nat, verdict: Verdict, reason: Option<nat>)
    requires Consistent(o)
    ensures Try(o, env, OutcomeCommand(k, verdict, reason)).Ok?
            <==> && k < |o.bookings| && o.bookings[k].status == Booked && o.bookings[k].session in env.locked
                 && (o.bookings[k].session, o.bookings[k].student) in env.marks
                 && env.marks[(o.bookings[k].session, o.bookings[k].student)] != Unmarked
                 && (verdict == GivesUp ==> reason != None) && o.bookings[k].lead in o.leads
                 && var status := o.leads[o.bookings[k].lead].status;
                    match verdict
                    case Enrolls => status == TrialBooked
                    case FollowUp => status in {New, Contacted, TrialBooked, TrialCompleted}
                    case GivesUp => status !in {Won, Lost}
    ensures Try(o, env, OutcomeCommand(k, verdict, reason)).Ok? ==>
              && o.bookings[k].lead in o.leads
              && var id, was := o.bookings[k].lead, o.leads[o.bookings[k].lead];
                 Step(o, env, OutcomeCommand(k, verdict, reason))
                 == o.(bookings := o.bookings[k := o.bookings[k].(
                         status := if env.marks[(o.bookings[k].session, o.bookings[k].student)]
                                      in {Present, Late, Online} then Attended else NoShow,
                         verdict := Some(verdict))],
                       leads := o.leads[id := match verdict
                                              case Enrolls => was.(status := TrialCompleted)
                                              case FollowUp => was.(status := Qualified)
                                              case GivesUp => was.(status := Lost, lostReason := reason)])
  {
    if k < |o.bookings| {
      assert o.bookings[k] in o.bookings;
      assert BookingKnown(o, o.bookings[k]);
    }
  }

  /** A lead is lost exactly before it is won or lost; its booked trial, if it has one, is dropped. */
  lemma LostExactly(o: Office, env: CrmEnv, id: Id, reason: nat)
    requires Consistent(o)
    ensures Try(o, env, LostCommand(id, reason)).Ok? <==> id in o.leads && o.leads[id].status !in {Won, Lost}
    ensures Try(o, env, LostCommand(id, reason)).Ok? ==>
              var o' := Step(o, env, LostCommand(id, reason));
              && o'.leads == o.leads[id := o.leads[id].(status := Lost, lostReason := Some(reason))]
              && ((forall b | b in o.bookings && b.lead == id :: b.status != Booked) ==>
                    o'.bookings == o.bookings && o'.table == o.table)
              && (forall k: nat | k < |o.bookings| && o.bookings[k].lead == id && o.bookings[k].status == Booked ::
                    && o.bookings[k].enrollment < |o.table.rows| && o'.table.rows == Withdrawing(o, env, k)
                    && o'.bookings == o.bookings[k := o.bookings[k].(status := BookingCancelled)])
  {
    if id in o.leads {
      LostNeverFails(o, env, id, reason);
      if o.leads[id].status !in {Won, Lost} {
        LostMovesLeads(o, env, id, reason);
        LostDrops(o, env, id, reason);
      }
    }
  }

  lemma LostDrops(o: Office, env: CrmEnv, id: Id, reason: nat)
    requires Consistent(o) && id in o.leads && MarkLost(o, env, id, reason).Ok?
    ensures var o' := MarkLost(o, env, id, reason).office;
            && ((forall b | b in o.bookings && b.lead == id :: b.status != Booked) ==>
                  o'.bookings == o.bookings && o'.table == o.table)
            && (forall k: nat | k < |o.bookings| && o.bookings[k].lead == id && o.bookings[k].status == Booked ::
                  && o.bookings[k].enrollment < |o.table.rows| && o'.table.rows == Withdrawing(o, env, k)
                  && o'.bookings == o.bookings[k := o.bookings[k].(status := BookingCancelled)])
  {
    var o1 := SetLead(o, id, o.leads[id].(status := Lost, lostReason := Some(reason)));
    forall b | b in o1.bookings ensures BookingKnown(o1, b) { assert BookingKnown(o, b); }
    if forall b | b in o.bookings && b.lead == id :: b.status != Booked { NoneDropped(o1, env, id, 0); }
    forall k: nat | k < |o.bookings| && o.bookings[k].lead == id && o.bookings[k].status == Booked
      ensures o.bookings[k].enrollment < |o.table.rows|
      ensures MarkLost(o, env, id, reason).office.table.rows == Withdrawing(o, env, k)
      ensures MarkLost(o, env, id, reason).office.bookings
              == o.bookings[k := o.bookings[k].(status := BookingCancelled)]
    {
      assert BookingKnown(o, o.bookings[k]);
      OneDropped(o1, env, id, k, 0);
      DropsExactly(o1, env, k);
    }
  }

  // ---------- conversion ----------

  ghost predicate TrialAt(o: Office, id: Id, student: Id, k: nat) {
    && k < |o.bookings| && o.bookings[k].lead == id && o.bookings[k].enrollment < |o.table.rows|
    && o.table.rows[o.bookings[k].enrollment].status == Trial
    && o.table.rows[o.bookings[k].enrollment].student == student
  }

  /** The enrollment is that of the lead's latest booking that is still a trial of the student. */
  ghost predicate LatestTrial(o: Office, id: Id, student: Id, e: Id) {
    exists k: nat :: TrialAt(o, id, student, k) && o.bookings[k].enrollment == e
                     && forall j: nat | k < j :: !TrialAt(o, id, student, j)
  }

  lemma {:induction false} TrialsExactly(o: Office, id: Id, student: Id, m: nat)
    requires m <= |o.bookings| && forall j: nat | m <= j :: !TrialAt(o, id, student, j)
    ensures forall e: Id :: OpenTrial(o.bookings[..m], o.table.rows, id, student) == Some(e)
              <==> LatestTrial(o, id, student, e)
    ensures OpenTrial(o.bookings[..m], o.table.rows, id, student).None?
            <==> forall k: nat :: !TrialAt(o, id, student, k)
  {
    if m != 0 {
      var b := o.bookings[m - 1];
      assert o.bookings[..m][..m - 1] == o.bookings[..m - 1] && o.bookings[..m][m - 1] == b;
      if TrialAt(o, id, student, m - 1) {
        assert LatestTrial(o, id, student, b.enrollment);
        forall e: Id | LatestTrial(o, id, student, e) ensures e == b.enrollment {
          var k: nat :| TrialAt(o, id, student, k) && o.bookings[k].enrollment == e
                        && forall j: nat | k < j :: !TrialAt(o, id, student, j);
        }
      } else {
        TrialsExactly(o, id, student, m - 1);
      }
    }
  }

  /** Withdrawing an enrollment of another class frees nothing in this one. */
  lemma OtherClassUnmoved(t: Table, t': Table, env: Env, id: Id, student: Id, class_: Id)
    requires id < |t.rows| && |t'.rows| == |t.rows| && t.rows[id].class_ != class_
    requires t'.rows == t.rows[id := t'.rows[id]] && t'.rows[id].class_ != class_
    ensures ED.Enrollable(t', env, student, class_, true) <==> ED.Enrollable(t, env, student, class_, true)
  {
    assert ED.Seated(t'.rows, class_, None, |t'.rows|) == ED.Seated(t.rows, class_, None, |t.rows|);
    forall e | e in t.rows && e.class_ == class_ ensures e in t'.rows {
      var k :| 0 <= k < |t.rows| && t.rows[k] == e;
      assert t'.rows[k] == e;
    }
    forall e | e in t'.rows && e.class_ == class_ ensures e in t.rows {
      var k :| 0 <= k < |t'.rows| && t'.rows[k] == e;
      assert t.rows[k] == e;
    }
  }

  /** The student can be active in the class: by the open trial if it is there and the class has a seat
      beside it, and otherwise by a new enrollment. */
  ghost predicate CanJoin(t: Table, env: Env, trial: Option<Id>, student: Id, class_: Id)
    requires trial.Some? ==> trial.value < |t.rows|
  {
    if trial.Some? && t.rows[trial.value].class_ == class_ then ED.HasSeat(t, env, class_, trial)
    else ED.Enrollable(t, env, student, class_, true)
  }

  lemma JoinsExactly(t: Table, env: Env, trial: Option<Id>, student: Id, class_: Id)
    requires trial.Some? ==> trial.value < |t.rows| && t.rows[trial.value].status == Trial
                             && t.rows[trial.value].student == student
    ensures EnrollInto(t, env, trial, student, class_).InClass? <==> CanJoin(t, env, trial, student, class_)
  {
    match trial
    case Some(id) =>
      if t.rows[id].class_ == class_ {
        ED.TransitionedExactly(t, env, id, Activate, None);
      } else {
        ED.TransitionedExactly(t, env, id, Withdraw, None);
        ED.TransitionWrites(t, env, id, Withdraw, None);
        var t1 := Transition(t, env, id, Withdraw, None).table;
        ED.ReenrolledExactly(t1, env, id, student, class_, Active, None);
        OtherClassUnmoved(t, t1, env, id, student, class_);
      }
    case None => ED.CreatedExactly(t, env, student, class_, Active, None);
  }

  /** The open trial a conversion looks for, if there is one. */
  ghost predicate TrialIs(o: Office, id: Id, student: Id, trial: Option<Id>) {
    match trial
    case Some(e) => e < |o.table.rows| && LatestTrial(o, id, student, e)
    case None => forall k: nat :: !TrialAt(o, id, student, k)
  }

  lemma TrialFound(o: Office, id: Id, student: Id)
    ensures forall trial ::
              OpenTrial(o.bookings, o.table.rows, id, student) == trial <==> TrialIs(o, id, student, trial)
  {
    assert o.bookings[..|o.bookings|] == o.bookings;
    TrialsExactly(o, id, student, |o.bookings|);
    var found := OpenTrial(o.bookings, o.table.rows, id, student);
    forall trial ensures found == trial <==> TrialIs(o, id, student, trial) {
      if trial.Some? && LatestTrial(o, id, student, trial.value) { assert found == Some(trial.value); }
    }
  }

  ghost predicate CanConvert(o: Office, env: CrmEnv, id: Id, choice: Choice, class_: Id, p: People,
                             students: map<Id, bool>)
    requires id in o.leads
  {
    && Picks(o, env, id, choice, p, students)
    && exists trial :: TrialIs(o, id, p.student, trial)
                       && CanJoin(o.table, env.base.(students := students), trial, p.student, class_)
  }

  /** A lead is converted exactly when qualified or after its trial, when the student picked can be active in
      the class. */
  lemma ConvertedExactly(o: Office, env: CrmEnv, id: Id, choice: Choice, class_: Id)
    ensures Try(o, env, ConvertCommand(id, choice, class_)).Ok?
            <==> && id in o.leads && o.leads[id].status in {Qualified, TrialCompleted}
                 && exists p, students :: CanConvert(o, env, id, choice, class_, p, students)
  {
    if id in o.leads {
      PicksExactly(o, env, id, choice);
      var picked := Ensure(env, o.leads[id], choice, TrialDefaults(o.bookings, id));
      if picked.Picked? {
        ConvertsPicked(o, env, id, choice, class_, picked.people, picked.students);
        forall p, students | CanConvert(o, env, id, choice, class_, p, students)
          ensures picked == Picked(p, students) {}
      } else {
        forall p, students ensures !CanConvert(o, env, id, choice, class_, p, students) {}
      }
    }
  }

  lemma ConvertsPicked(o: Office, env: CrmEnv, id: Id, choice: Choice, class_: Id, p: People, students: map<Id, bool>)
    requires id in o.leads && Picks(o, env, id, choice, p, students)
    ensures CanConvert(o, env, id, choice, class_, p, students)
            <==> EnrollInto(o.table, WithStudents(env.base, students),
                            OpenTrial(o.bookings, o.table.rows, id, p.student), p.student, class_).InClass?
  {
    var trial := OpenTrial(o.bookings, o.table.rows, id, p.student);
    TrialFound(o, id, p.student);
    assert TrialIs(o, id, p.student, trial);
    JoinsExactly(o.table, WithStudents(env.base, students), trial, p.student, class_);
    forall other | TrialIs(o, id, p.student, other) ensures other == trial {}
  }

  /** The table after the student became active in the class, and the enrollment by which. */
  ghost predicate Joined(t: Table, t': Table, now: int, trial: Option<Id>, student: Id, class_: Id, enrollment: Id)
    requires trial.Some? ==> trial.value < |t.rows|
  {
    if trial.Some? && t.rows[trial.value].class_ == class_ then
      && enrollment == trial.value
      && t'.rows == t.rows[enrollment := t.rows[enrollment].(
           status := Active, startedAt := ED.Started(t.rows[enrollment], now), pauseStartedAt := None, endedAt := None)]
    else
      && enrollment == |t.rows|
      && t'.rows == (if trial.Some? then t.rows[trial.value := t.rows[trial.value].(
                                         status := Withdrawn, pauseStartedAt := None, endedAt := Some(now))]
                     else t.rows)
                    + [Enrollment(student, class_, Active, None, None, None, trial)]
  }

  lemma EnrollIntoJoins(t: Table, env: Env, trial: Option<Id>, student: Id, class_: Id)
    requires trial.Some? ==> trial.value < |t.rows|
    requires EnrollInto(t, env, trial, student, class_).InClass?
    ensures var r := EnrollInto(t, env, trial, student, class_);
            Joined(t, r.table, env.now, trial, student, class_, r.enrollment)
  {
    match trial
    case Some(id) =>
      if t.rows[id].class_ == class_ {
        ED.TransitionWrites(t, env, id, Activate, None);
      } else {
        ED.TransitionWrites(t, env, id, Withdraw, None);
        ED.ReenrolledExactly(Transition(t, env, id, Withdraw, None).table, env, id, student, class_, Active, None);
      }
    case None => ED.CreatedExactly(t, env, student, class_, Active, None);
  }

  /** It leaves the lead won, with the student and guardian picked and the enrollment by which the student
      is active in the class: the open trial's, if that is there, and otherwise a new one. */
  lemma ConversionWrites(o: Office, env: CrmEnv, id: Id, choice: Choice, class_: Id)
    requires Try(o, env, ConvertCommand(id, choice, class_)).Ok?
    ensures var o' := Step(o, env, ConvertCommand(id, choice, class_));
            && o'.bookings == o.bookings
            && exists p, students, trial, e: Id ::
                 && Picks(o, env, id, choice, p, students) && TrialIs(o, id, p.student, trial)
                 && Joined(o.table, o'.table, env.base.now, trial, p.student, class_, e)
                 && o'.leads == o.leads[id := o.leads[id].(status := Won, student := Some(p.student),
                                                           guardian := p.guardian, enrollment := Some(e))]
  {
    PicksExactly(o, env, id, choice);
    var picked := Ensure(env, o.leads[id], choice, TrialDefaults(o.bookings, id));
    var p, students := picked.people, picked.students;
    var trial := OpenTrial(o.bookings, o.table.rows, id, p.student);
    TrialFound(o, id, p.student);
    EnrollIntoJoins(o.table, WithStudents(env.base, students), trial, p.student, class_);
    assert TrialIs(o, id, p.student, trial) && Picks(o, env, id, choice, p, students);
  }

  // ---------- what every run leaves of the enrollments ----------

  /** The k-th event is the enrollment's last. */
  ghost predicate LastOf(events: seq<Event>, id: Id, k: nat) {
    k < |events| && events[k].enrollment == id && forall m | k < m < |events| :: events[m].enrollment != id
  }

  /** Of two events of the enrollment, these are next to each other. */
  ghost predicate Next(events: seq<Event>, id: Id, k: nat, m: nat) {
    && k < m < |events| && events[k].enrollment == id && events[m].enrollment == id
    && forall i | k < i < m :: events[i].enrollment != id
  }

  lemma NextOfFront(events: seq<Event>, id: Id, k: nat, m: nat)
    requires |events| != 0 && Next(events, id, k, m)
    ensures m < |events| - 1 ==> Next(events[..|events| - 1], id, k, m)
    ensures m == |events| - 1 ==> LastOf(events[..|events| - 1], id, k)
  {}

  lemma LastOfWhole(events: seq<Event>, id: Id, k: nat)
    requires |events| != 0 && LastOf(events[..|events| - 1], id, k) && events[|events| - 1].enrollment != id
    ensures LastOf(events, id, k) && events[k] == events[..|events| - 1][k]
  {
    var n := |events| - 1;
    forall m | k < m < |events| ensures events[m].enrollment != id {
      if m < n { assert events[..n][m] == events[m]; }
    }
  }

  lemma {:induction false} HistoryTold(events: seq<Event>, id: Id)
    requires Chained(History(events, id))
    ensures forall k: nat | LastOf(events, id, k) ::
              var h := History(events, id); h != [] && h[|h| - 1] == events[k]
    ensures History(events, id) != [] ==> exists k: nat :: LastOf(events, id, k)
    ensures forall k: nat, m: nat | Next(events, id, k, m) :: events[m].from == Some(events[k].to)
  {
    if |events| != 0 {
      var n := |events| - 1;
      var front := events[..n];
      assert events == front + [events[n]];
      FilterSnoc(front, events[n], Of(id));
      var h := History(front, id);
      assert forall i | 0 <= i < |h| :: h[i] == History(events, id)[i];
      HistoryTold(front, id);
      if events[n].enrollment == id {
        assert LastOf(events, id, n);
        forall k: nat | LastOf(events, id, k) ensures k == n {}
      } else {
        forall k: nat | LastOf(front, id, k) ensures LastOf(events, id, k) { LastOfWhole(events, id, k); }
        forall k: nat | LastOf(events, id, k) ensures LastOf(front, id, k) && events[k] == front[k] {}
      }
      forall k: nat, m: nat | Next(events, id, k, m) ensures events[m].from == Some(events[k].to) {
        NextOfFront(events, id, k, m);
        if m == n { assert History(events, id)[|h|].from == Some(History(events, id)[|h| - 1].to); }
      }
    }
  }

  /** In every reachable state no class is over its capacity, no student is in a class twice, exactly the
      ended enrollments have an end date, and links lead to an earlier ended one of the same student. */
  lemma EnrollmentsTold(calls: seq<Call>)
    requires Proper(calls) && |calls| != 0
    ensures var rows, classes := Run(calls).table.rows, calls[|calls| - 1].env.base.classes;
            && (forall c | c in classes && classes[c].capacity.Some? ::
                  |ED.Seated(rows, c, None, |rows|)| <= classes[c].capacity.value)
            && (forall i | 0 <= i < |rows| :: rows[i].class_ in classes)
            && (forall i, j | 0 <= i < j < |rows| && rows[i].student == rows[j].student
                              && rows[i].class_ == rows[j].class_ ::
                  !(rows[i].status in {Pending, Trial, Active, Paused}
                    && rows[j].status in {Pending, Trial, Active, Paused}))
            && (forall i | 0 <= i < |rows| ::
                  rows[i].endedAt.Some? <==> rows[i].status in {Completed, Withdrawn, Cancelled})
            && (forall i | 0 <= i < |rows| && rows[i].source.Some? ::
                  && rows[i].source.value < i && rows[rows[i].source.value].student == rows[i].student
                  && rows[rows[i].source.value].status in {Completed, Withdrawn, Cancelled})
  {
    RunSafe(calls);
    var rows := Run(calls).table.rows;
    forall c ensures Consumers(rows, c, None) == |ED.Seated(rows, c, None, |rows|)| {
      ED.SeatsCounted(rows, c, None, |rows|);
      assert rows[..|rows|] == rows;
    }
    forall i | 0 <= i < |rows| ensures DatedRow(rows[i]) && LinkedAt(rows, i) {}
  }

  /** And each enrollment's events, in the order they were written, start each from the status the one
      before ended in, the last one in the enrollment's own. */
  lemma EventsTold(calls: seq<Call>, id: Id)
    requires Proper(calls) && |calls| != 0 && id < |Run(calls).table.rows|
    ensures var events := Run(calls).table.events;
            && (exists k: nat :: LastOf(events, id, k))
            && (forall k: nat | LastOf(events, id, k) :: events[k].to == Run(calls).table.rows[id].status)
            && (forall k: nat, m: nat | Next(events, id, k, m) :: events[m].from == Some(events[k].to))
  {
    RunSafe(calls);
    assert Tells(History(Run(calls).table.events, id), Run(calls).table.rows[id].status);
    HistoryTold(Run(calls).table.events, id);
  }
}

/** When each enrollment command is accepted and what it leaves in the tables, in terms of the rows. */
module EnrollmentDecisions {
  import opened Collections
  import opened Enrollments

  // ---------- seats ----------

  /** The pending, trial, active and paused enrollments of a class among the first k, leaving one out. */
  function Seated(rows: seq<Enrollment>, class_: Id, except: Option<Id>, k: nat): set<nat>
    requires k <= |rows|
  {
    set i: nat | i < k && rows[i].class_ == class_ && rows[i].status in {Pending, Trial, Active, Paused}
                 && (except.None? || i != except.value)
  }

  lemma {:induction false} SeatsCounted(rows: seq<Enrollment>, class_: Id, except: Option<Id>, k: nat)
    requires k <= |rows|
    ensures Consumers(rows[..k], class_, except) == |Seated(rows, class_, except, k)|
  {
    if k != 0 {
      SeatsCounted(rows, class_, except, k - 1);
      assert rows[..k][..k - 1] == rows[..k - 1];
      var before, after := Seated(rows, class_, except, k - 1), Seated(rows, class_, except, k);
      if k - 1 in after { assert after == before + {k - 1}; } else { assert after == before; }
    }
  }

  /** The class is known and, if it has a capacity, not full without the one left out. */
  ghost predicate HasSeat(t: Table, env: Env, class_: Id, except: Option<Id>) {
    && class_ in env.classes
    && (env.classes[class_].capacity.Some? ==>
          |Seated(t.rows, class_, except, |t.rows|)| < env.classes[class_].capacity.value)
  }

  lemma SeatExactly(t: Table, env: Env, class_: Id, status: Status, except: Option<Id>)
    requires status in {Pending, Trial, Active, Paused}
    ensures CapacityError(t, env, class_, status, except).None? <==> HasSeat(t, env, class_, except)
  {
    SeatsCounted(t.rows, class_, except, |t.rows|);
    assert t.rows[..|t.rows|] == t.rows;
  }

  ghost predicate Enrollable(t: Table, env: Env, student: Id, class_: Id, activeNeeded: bool) {
    && student in env.students && HasSeat(t, env, class_, None)
    && (activeNeeded ==> env.students[student] && env.classes[class_].active)
    && forall e | e in t.rows && e.student == student && e.class_ == class_ ::
         e.status !in {Pending, Trial, Active, Paused}
  }

  lemma EnrollableExactly(t: Table, env: Env, student: Id, class_: Id, status: Status, activeNeeded: bool)
    requires status in {Pending, Trial, Active, Paused}
    ensures Enrollable(t, env, student, class_, activeNeeded)
            <==> && MissingOrDisabled(env, student, class_, activeNeeded).None?
                 && CapacityError(t, env, class_, status, None).None? && !PairTaken(t.rows, student, class_)
  {
    SeatExactly(t, env, class_, status, None);
  }

  // ---------- creation ----------

  /** An enrollment is created exactly for a known student in a known class with a free seat, both of
      them active unless it is pending, when the student has none there that still counts. It adds one
      row, started if it is active, and tells its creation and, unless pending, its first status. */
  lemma CreatedExactly(t: Table, env: Env, student: Id, class_: Id, status: Status, at: Option<int>)
    requires status in {Pending, Trial, Active}
    ensures var o := Perform(t, env, CreateCommand(student, class_, status, at));
            && (o.Done? <==> Enrollable(t, env, student, class_, status != Pending))
            && (o.Done? ==>
                  && o.id == |t.rows|
                  && o.table.rows == t.rows + [Enrollment(student, class_, status,
                                                          if status == Active then at else None, None, None, None)]
                  && o.table.events
                     == t.events + [Event(|t.rows|, Enrolled, None, status, env.now, env.ulid(0))]
                        + match status
                          case Active => [Event(|t.rows|, Activated, Some(Active), Active, env.now, env.ulid(1))]
                          case Trial => [Event(|t.rows|, TrialStarted, Some(Trial), Trial, env.now, env.ulid(1))]
                          case _ => [])
  {
    EnrollableExactly(t, env, student, class_, status, status != Pending);
  }

  // ---------- transitions ----------

  /** From which statuses each verb is accepted. */
  ghost predicate Starts(verb: Verb, from: Status) {
    match verb
    case Activate => from in {Pending, Trial, Paused}
    case BeginTrial => from == Pending
    case Pause => from == Active
    case Resume => from in {Pending, Trial, Paused}
    case Withdraw => from in {Trial, Active, Paused}
    case Complete => from == Active
    case Cancel => from in {Pending, Trial}
  }

  /** A transition succeeds exactly from a status its verb starts at and, into the active or paused
      status, while the class has a seat beside the enrollment's own. */
  lemma TransitionedExactly(t: Table, env: Env, id: Id, verb: Verb, at: Option<int>)
    ensures Perform(t, env, TransitionCommand(id, verb, at)).Done?
            <==> && id < |t.rows| && Starts(verb, t.rows[id].status)
                 && (verb in {Activate, Resume, Pause} ==> HasSeat(t, env, t.rows[id].class_, Some(id)))
  {
    if id < |t.rows| {
      SeatExactly(t, env, t.rows[id].class_, Active, Some(id));
      SeatExactly(t, env, t.rows[id].class_, Paused, Some(id));
    }
  }

  /** What an enrollment is at the given time after the verb. */
  function Became(row: Enrollment, verb: Verb, at: int): Enrollment {
    match verb
    case Activate => row.(status := Active, startedAt := Started(row, at), pauseStartedAt := None, endedAt := None)
    case Resume => row.(status := Active, startedAt := Started(row, at), pauseStartedAt := None, endedAt := None)
    case BeginTrial => row.(status := Trial, pauseStartedAt := None, endedAt := None)
    case Pause => row.(status := Paused, pauseStartedAt := Some(at), endedAt := None)
    case Withdraw => row.(status := Withdrawn, pauseStartedAt := None, endedAt := Some(at))
    case Complete => row.(status := Completed, pauseStartedAt := None, endedAt := Some(at))
    case Cancel => row.(status := Cancelled, pauseStartedAt := None, endedAt := Some(at))
  }

  function Started(row: Enrollment, at: int): Option<int> {
    if row.startedAt.None? then Some(at) else row.startedAt
  }

  /** It leaves the enrollment as its verb says, with one event that names verb and both statuses. */
  lemma TransitionWrites(t: Table, env: Env, id: Id, verb: Verb, at: Option<int>)
    requires Perform(t, env, TransitionCommand(id, verb, at)).Done?
    ensures var o, time := Perform(t, env, TransitionCommand(id, verb, at)), if at.Some? then at.value else env.now;
            && o.id == id && o.table.rows == t.rows[id := Became(t.rows[id], verb, time)]
            && |o.table.events| == |t.events| + 1 && t.events <= o.table.events
            && var e := o.table.events[|t.events|];
               && e.enrollment == id && e.at == env.now && e.from == Some(t.rows[id].status)
               && e.to == Became(t.rows[id], verb, time).status
               && (verb == Activate <==> e.kind == Activated) && (verb == BeginTrial <==> e.kind == TrialStarted)
               && (verb == Pause <==> e.kind == PausedEvent) && (verb == Resume <==> e.kind == Resumed)
               && (verb == Withdraw <==> e.kind == WithdrawnEvent) && (verb == Complete <==> e.kind == CompletedEvent)
               && (verb == Cancel <==> e.kind == CancelledEvent)
  {
  }

  // ---------- transfer and re-enrollment ----------

  /** An enrollment is transferred exactly while it counts, to another class that can take its student,
      active where the enrollment is active. It ends as withdrawn, and one with its status follows it. */
  lemma TransferredExactly(t: Table, env: Env, id: Id, destination: Id, at: Option<int>)
    ensures var o := Perform(t, env, TransferCommand(id, destination, at));
            && (o.Done?
                <==> && id < |t.rows| && t.rows[id].status in {Pending, Trial, Active, Paused}
                     && t.rows[id].class_ != destination
                     && Enrollable(t, env, t.rows[id].student, destination, t.rows[id].status == Active))
            && (o.Done? ==>
                  var source, time := t.rows[id], if at.Some? then at.value else env.now;
                  && o.id == |t.rows|
                  && o.table.rows
                     == t.rows[id := source.(status := Withdrawn, endedAt := Some(time))]
                        + [Enrollment(source.student, destination, source.status,
                                      if source.startedAt.None? && source.status == Active then Some(time)
                                      else source.startedAt, None, None, Some(id))]
                  && o.table.events
                     == t.events + [Event(id, Transferred, Some(source.status), Withdrawn, env.now, env.ulid(0)),
                                    Event(|t.rows|, Transferred, None, source.status, env.now, env.ulid(1))])
  {
    if id < |t.rows| && t.rows[id].status in {Pending, Trial, Active, Paused} {
      EnrollableExactly(t, env, t.rows[id].student, destination, t.rows[id].status, t.rows[id].status == Active);
    }
  }

  /** A student is enrolled again exactly from an own enrollment that ended, where a new one could be
      created; the new one is linked to it. */
  lemma ReenrolledExactly(t: Table, env: Env, id: Id, student: Id, class_: Id, status: Status, at: Option<int>)
    requires status in {Pending, Trial, Active}
    ensures var o := Perform(t, env, ReenrollCommand(id, student, class_, status, at));
            && (o.Done?
                <==> && id < |t.rows| && t.rows[id].status in {Completed, Withdrawn, Cancelled}
                     && t.rows[id].student == student && Enrollable(t, env, student, class_, status != Pending))
            && (o.Done? ==>
                  && o.id == |t.rows|
                  && o.table.rows == t.rows + [Enrollment(student, class_, status,
                                                          if status == Active then at else None, None, None, Some(id))]
                  && o.table.events == t.events + [Event(|t.rows|, Reenrolled, Some(t.rows[id].status), status,
                                                         env.now, env.ulid(0))])
  {
    EnrollableExactly(t, env, student, class_, status, status != Pending);
  }

  // ---------- what the errors say ----------

  /** An enrollment, student or class that is not there is not found. */
  lemma UnknownNotFound(t: Table, env: Env, id: Id, verb: Verb, class_: Id, at: Option<int>)
    ensures id >= |t.rows| ==>
              && Perform(t, env, TransitionCommand(id, verb, at)) == Failed(NotFound)
              && Perform(t, env, TransferCommand(id, class_, at)) == Failed(NotFound)
    ensures forall student, status | status in {Pending, Trial, Active} ::
              && (student !in env.students ==>
                    Perform(t, env, CreateCommand(student, class_, status, at)) == Failed(NotFound))
              && (student in env.students && class_ !in env.classes && (status == Pending || env.students[student]) ==>
                    Perform(t, env, CreateCommand(student, class_, status, at)) == Failed(NotFound))
              && (id >= |t.rows| ==>
                    Perform(t, env, ReenrollCommand(id, student, class_, status, at)) == Failed(NotFound))
  {}
}

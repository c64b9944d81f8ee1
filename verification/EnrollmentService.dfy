/** The enrollment service: transactions that check, then insert and update rows in place. Each
    method is proved to do exactly what its command does in the model. */
module EnrollmentServices {
  import opened Collections
  import opened Enrollments

  datatype Reply = Replied(id: Id) | Rejected(error: Error)

  /** The command was decided on the table before, and the table is what it decided. */
  predicate Answers(before: Table, o: Outcome, reply: Reply, after: Table) {
    match o
    case Done(table, id) => reply == Replied(id) && after == table
    case Failed(error) => reply == Rejected(error) && after == before
  }

  class EnrollmentService {
    var rows: seq<Enrollment>
    var events: seq<Event>

    constructor ()
      ensures Contents() == Table([], [])
    {
      rows, events := [], [];
    }

    function Contents(): Table
      reads this
    {
      Table(rows, events)
    }

    method Record(id: Id, kind: EventKind, from: Option<Status>, to: Status, now: int, event: Id)
      modifies this`events
      ensures events == old(events) + [Event(id, kind, from, to, now, event)]
    {
      events := events + [Event(id, kind, from, to, now, event)];
    }

    /** The insert the unique index may refuse. */
    method Insert(row: Enrollment) returns (ok: bool)
      requires Operational(row.status)
      modifies this`rows
      ensures ok <==> !PairTaken(old(rows), row.student, row.class_)
      ensures rows == if ok then old(rows) + [row] else old(rows)
    {
      ok := !PairTaken(rows, row.student, row.class_);
      if ok { rows := rows + [row]; }
    }

    method CreateInTransaction(env: Env, student: Id, class_: Id, status: Status, enrolledAt: Option<int>)
      returns (reply: Reply)
      requires Initial(status)
      modifies this
      ensures Answers(old(Contents()), Create(old(Contents()), env, student, class_, status, enrolledAt), reply,
                      Contents())
    {
      var missing := MissingOrDisabled(env, student, class_, status != Pending);
      if missing.Some? { return Rejected(missing.value); }
      var full := CapacityError(Contents(), env, class_, status, None);
      if full.Some? { return Rejected(full.value); }
      var id := |rows|;
      var startedAt := if status == Active then enrolledAt else None;
      var ok := Insert(Enrollment(student, class_, status, startedAt, None, None, None));
      if !ok { return Rejected(Conflict); }
      Record(id, Enrolled, None, status, env.now, env.ulid(0));
      if status == Active { Record(id, Activated, Some(status), status, env.now, env.ulid(1)); }
      if status == Trial { Record(id, TrialStarted, Some(status), status, env.now, env.ulid(1)); }
      reply := Replied(id);
    }

    method TransitionInTransaction(env: Env, id: Id, verb: Verb, effectiveAt: Option<int>) returns (reply: Reply)
      modifies this
      ensures Answers(old(Contents()), Transition(old(Contents()), env, id, verb, effectiveAt), reply, Contents())
    {
      if id >= |rows| { return Rejected(NotFound); }
      var current, next := rows[id], Target(verb);
      if !Allowed(current.status, next) { return Rejected(Conflict); }
      if next == Active || next == Paused {
        var full := CapacityError(Contents(), env, current.class_, next, Some(id));
        if full.Some? { return Rejected(full.value); }
      }
      var at := At(env, effectiveAt);
      var updated := current.(status := next);
      if next == Active && current.startedAt.None? { updated := updated.(startedAt := Some(at)); }
      updated := updated.(pauseStartedAt := if next == Paused then Some(at) else None);
      updated := updated.(endedAt := if Terminal(next) then Some(at) else None);
      rows := rows[id := updated];
      Record(id, KindOf(verb), Some(current.status), next, env.now, env.ulid(0));
      reply := Replied(id);
    }

    method TransferEnrollment(env: Env, id: Id, destination: Id, effectiveAt: Option<int>) returns (reply: Reply)
      modifies this
      ensures Answers(old(Contents()), Transfer(old(Contents()), env, id, destination, effectiveAt), reply, Contents())
    {
      if id >= |rows| { return Rejected(NotFound); }
      var source := rows[id];
      if !Operational(source.status) { return Rejected(Conflict); }
      if source.class_ == destination { return Rejected(BadRequest); }
      var missing := MissingOrDisabled(env, source.student, destination, source.status == Active);
      if missing.Some? { return Rejected(missing.value); }
      var full := CapacityError(Contents(), env, destination, source.status, None);
      if full.Some? { return Rejected(full.value); }
      var destinationId, at := |rows|, At(env, effectiveAt);
      var ok := Insert(Continued(source, id, destination, at));
      if !ok { return Rejected(Conflict); }
      rows := rows[id := source.(status := Withdrawn, endedAt := Some(at))];
      Record(id, Transferred, Some(source.status), Withdrawn, env.now, env.ulid(0));
      Record(destinationId, Transferred, None, source.status, env.now, env.ulid(1));
      reply := Replied(destinationId);
      assert rows == old(rows)[id := Closed(source, at)] + [Continued(source, id, destination, at)];
    }

    method ReenrollInTransaction(env: Env, id: Id, student: Id, class_: Id, status: Status, enrolledAt: Option<int>)
      returns (reply: Reply)
      requires Initial(status)
      modifies this
      ensures Answers(old(Contents()), Reenroll(old(Contents()), env, id, student, class_, status, enrolledAt), reply,
                      Contents())
    {
      if id >= |rows| { return Rejected(NotFound); }
      var source := rows[id];
      if !Terminal(source.status) { return Rejected(Conflict); }
      if student != source.student { return Rejected(BadRequest); }
      var missing := MissingOrDisabled(env, source.student, class_, status != Pending);
      if missing.Some? { return Rejected(missing.value); }
      var full := CapacityError(Contents(), env, class_, status, None);
      if full.Some? { return Rejected(full.value); }
      var destinationId := |rows|;
      var startedAt := if status == Active then enrolledAt else None;
      var row := Enrollment(source.student, class_, status, startedAt, None, None, Some(id));
      var ok := Insert(row);
      if !ok { return Rejected(Conflict); }
      Record(destinationId, Reenrolled, Some(source.status), status, env.now, env.ulid(0));
      reply := Replied(destinationId);
    }
  }
}

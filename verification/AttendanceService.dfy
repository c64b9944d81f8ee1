/** The attendance service: transactions that update sheets, records, entitlements and bookings in
    sequence, and roll back when a step fails. */
module AttendanceServices {
  import opened Collections
  import opened Marks
  import opened Attendance
  import opened AttendanceSafety

  datatype Reply = Committed | RolledBack(error: Error)

  predicate Applies(before: Register, answer: Answer, reply: Reply, after: Register) {
    match answer
    case Done(register) => reply == Committed && after == register
    case Refused(error) => reply == RolledBack(error) && after == before
  }

  /** A transaction that applies its command is a step of the model, so it keeps the joint invariant. */
  lemma AppliedSound(before: Register, env: Env, c: Command, reply: Reply, after: Register)
    requires Sound(before) && Applies(before, Try(before, env, c), reply, after)
    ensures after == Step(before, env, c) && Sound(after)
  {
    StepSound(before, env, c);
  }

  lemma RightsNone(r: Register)
    ensures WithRights(r, {}) == r.entitlements
  {}

  lemma RightsNext(r: Register, keys: set<Key>, k: Key)
    requires forall x | x in keys + {k} :: x in r.records && x.0 in r.sessions
    ensures WithRights(r.(entitlements := WithRights(r, keys)), {k}) == WithRights(r, keys + {k})
  {}

  class AttendanceService {
    var sessions: map<Id, Session>
    var sheets: map<Id, SheetStatus>
    var records: map<Key, Record>
    var entitlements: map<Key, Entitlement>
    var bookings: seq<Booking>

    constructor ()
      ensures Contents() == Register(map[], map[], map[], map[], [])
    {
      sessions, sheets, records, entitlements, bookings := map[], map[], map[], map[], [];
    }

    function Contents(): Register
      reads this
    {
      Register(sessions, sheets, records, entitlements, bookings)
    }

    /** ROLLBACK */
    method Restore(r: Register)
      modifies this
      ensures Contents() == r
    {
      sessions, sheets, records, entitlements, bookings := r.sessions, r.sheets, r.records, r.entitlements, r.bookings;
    }

    method InitializeInTransaction(env: Env, session: Id)
      requires session in sessions
      modifies this
      ensures Contents() == Initialize(old(Contents()), env, session)
    {
      if session in sheets && sheets[session] == Locked { return; }
      ghost var r := Contents();
      var roster := RosterOf(env, sessions[session].class_);
      if session !in sheets {
        sheets := sheets[session := Open];
        for k := 0 to |roster|
          invariant Contents() == r.(sheets := r.sheets[session := Open],
                                     records := AddRoster(r.records, session, roster, k))
        {
          var (student, enrollment) := roster[k];
          if (session, student) !in records {
            records := records[(session, student) := Record(Some(enrollment), Regular, None, Unmarked)];
          }
        }
      }
      ghost var snapshot := Contents();
      for b := 0 to |bookings|
        invariant Contents() == snapshot.(records := PlaceAll(snapshot.records, snapshot.bookings, session, b))
      {
        if Targets(bookings[b], session) { records := Place(records, KeyOf(bookings[b]), b, Unmarked); }
      }
    }

    method InitializeSheet(env: Env, session: Id) returns (reply: Reply)
      modifies this
      ensures Applies(old(Contents()), InitializeCommand(old(Contents()), env, session), reply, Contents())
    {
      if session !in sessions { return RolledBack(NotFound); }
      if sessions[session].status != Scheduled { return RolledBack(Conflict); }
      InitializeInTransaction(env, session);
      reply := Committed;
    }

    method Update(key: Key, mark: Mark) returns (reply: Reply)
      modifies this
      ensures Applies(old(Contents()), UpdateRecord(old(Contents()), key, mark), reply, Contents())
    {
      if key !in records || key.0 !in sessions { return RolledBack(NotFound); }
      if (key.0 in sheets && sheets[key.0] == Locked) || sessions[key.0].status != Scheduled {
        return RolledBack(Conflict);
      }
      if records[key].source == FromMakeup && !MakeupMark(mark) { return RolledBack(Conflict); }
      if records[key].source == Regular && mark == Makeup { return RolledBack(ConstraintFailed); }
      records := records[key := records[key].(mark := mark)];
      reply := Committed;
    }

    /** INSERT .. ON CONFLICT DO NOTHING */
    method InsertRight(k: Key)
      requires k in records && k.0 in sessions
      modifies this`entitlements
      ensures entitlements == WithRights(old(Contents()), {k})
    {
      if k !in entitlements { entitlements := entitlements[k := NewRight(Contents(), k)]; }
    }

    method CreateRights(env: Env, session: Id)
      requires session in sessions
      modifies this`entitlements
      ensures Contents() == CreateEntitlements(old(Contents()), env, session)
    {
      ghost var r := Contents();
      var keys := EarnedKeys(Contents(), env, session);
      var todo := keys;
      RightsNone(r);
      while todo != {}
        invariant todo <= keys == EarnedKeys(r, env, session)
        invariant Contents() == r.(entitlements := WithRights(r, keys - todo))
        decreases |todo|
      {
        var k :| k in todo;
        RightsNext(r, keys - todo, k);
        InsertRight(k);
        assert keys - (todo - {k}) == (keys - todo) + {k};
        todo := todo - {k};
      }
      assert keys - todo == keys;
    }

    method ReconcileBookings(today: int, session: Id)
      modifies this
      ensures Contents() == Reconcile(old(Contents()), today, session)
    {
      ghost var r := Contents();
      for b := 0 to |bookings|
        invariant |bookings| == |r.bookings| && Contents() == CancelNoShows(r, today, session, b)
      {
        if Targets(bookings[b], session) && !Attended(records, bookings, b) {
          var e := bookings[b].entitlement;
          bookings := bookings[b := bookings[b].(status := Cancelled)];
          if e in entitlements && entitlements[e].status == Reserved {
            entitlements := entitlements[e := Returned(entitlements[e], today)];
          }
        }
      }
      ghost var middle := Contents();
      for b := 0 to |bookings|
        invariant |bookings| == |r.bookings| && Contents() == UseAttended(middle, session, b)
      {
        if Targets(bookings[b], session) && Attended(records, bookings, b) {
          var e := bookings[b].entitlement;
          bookings := bookings[b := bookings[b].(status := Used)];
          if e in entitlements { entitlements := entitlements[e := entitlements[e].(status := Consumed)]; }
        }
      }
    }

    method FinalizeSheet(env: Env, session: Id) returns (reply: Reply)
      modifies this
      ensures Applies(old(Contents()), Finalize(old(Contents()), env, session), reply, Contents())
    {
      if session !in sessions { return RolledBack(NotFound); }
      if sessions[session].status == CalledOff || sessions[session].status == Moved { return RolledBack(Conflict); }
      if session in sheets && sheets[session] == Locked { return RolledBack(Conflict); }
      var saved := Contents();
      InitializeInTransaction(env, session);
      if HasUnmarked(records, session) {
        Restore(saved);
        return RolledBack(BadRequest);
      }
      sheets := sheets[session := Locked];
      if sessions[session].status != Scheduled {
        Restore(saved);
        return RolledBack(Conflict);
      }
      sessions := sessions[session := sessions[session].(status := Finished)];
      CreateRights(env, session);
      ReconcileBookings(env.today, session);
      reply := Committed;
    }

    method CorrectMark(env: Env, key: Key, mark: Mark, reason: string) returns (reply: Reply)
      modifies this
      ensures Applies(old(Contents()), Correct(old(Contents()), env, key, mark, reason), reply, Contents())
    {
      if key !in records || key.0 !in sessions || key.0 !in sheets || sheets[key.0] != Locked {
        return RolledBack(NotFound);
      }
      var was := records[key];
      if reason == "" || mark == Unmarked || was.mark == mark { return RolledBack(BadRequest); }
      if Engaged(Contents(), key) && was.mark == AbsentExcused && mark != AbsentExcused { return RolledBack(Conflict); }
      if mark == Makeup && (was.source != FromMakeup || was.booking.None?) { return RolledBack(Conflict); }
      if was.source == FromMakeup && !MakeupMark(mark) { return RolledBack(Conflict); }
      records := records[key := was.(mark := mark)];
      if mark == AbsentExcused && was.mark != AbsentExcused {
        if key in entitlements {
          if entitlements[key].status == Revoked {
            entitlements := entitlements[key := Returned(entitlements[key], env.today)];
          }
        } else {
          CreateRights(env, key.0);
        }
      }
      if mark != AbsentExcused && was.mark == AbsentExcused {
        if key in entitlements && entitlements[key].status == Available {
          entitlements := entitlements[key := entitlements[key].(status := Revoked)];
        }
      }
      reply := Committed;
    }

    method BookRight(env: Env, e: Key, destination: Id) returns (reply: Reply)
      modifies this
      ensures Applies(old(Contents()), BookMakeup(old(Contents()), env, e, destination), reply, Contents())
    {
      if e !in entitlements { return RolledBack(NotFound); }
      var right := entitlements[e];
      if right.status != Available { return RolledBack(Conflict); }
      if e.0 !in sessions { return RolledBack(NotFound); }
      if sessions[e.0].status != Finished { return RolledBack(Conflict); }
      var saved := Contents();
      if env.today > right.expires {
        entitlements := entitlements[e := right.(status := Expired)];
        Restore(saved);
        return RolledBack(Conflict);
      }
      var error := DestinationError(Contents(), env, e.0, destination, right.expires);
      if error.Some? { return RolledBack(error.value); }
      InitializeInTransaction(env, destination);
      error := SeatError(Contents(), env, destination, e.1);
      if error.None? && (ActiveFor(bookings, e) || ActiveAt(bookings, e.1, destination)) { error := Some(Conflict); }
      if error.Some? {
        Restore(saved);
        return RolledBack(error.value);
      }
      var booking := |bookings|;
      bookings := bookings + [Booking(e, destination, Booked)];
      entitlements := entitlements[e := right.(status := Reserved)];
      records := Place(records, (destination, e.1), booking, Unmarked);
      reply := Committed;
    }

    method RebookRight(env: Env, b: nat, destination: Id) returns (reply: Reply)
      modifies this
      ensures Applies(old(Contents()), RebookMakeup(old(Contents()), env, b, destination), reply, Contents())
    {
      if b >= |bookings| || bookings[b].entitlement !in entitlements { return RolledBack(NotFound); }
      var booking := bookings[b];
      var e := booking.entitlement;
      var right := entitlements[e];
      if booking.status != Booked || env.today > right.expires { return RolledBack(Conflict); }
      if booking.destination == destination { return RolledBack(BadRequest); }
      if !SourceFinished(Contents(), e.0) { return RolledBack(Conflict); }
      var error := DestinationError(Contents(), env, e.0, destination, right.expires);
      if error.Some? { return RolledBack(error.value); }
      var saved := Contents();
      InitializeInTransaction(env, destination);
      error := SeatError(Contents(), env, destination, e.1);
      if error.None? && booking.destination in sheets && sheets[booking.destination] == Locked {
        error := Some(Conflict);
      }
      if error.None? && ActiveAt(bookings, e.1, destination) { error := Some(Conflict); }
      if error.Some? {
        Restore(saved);
        return RolledBack(error.value);
      }
      records := Released(records, b, {booking.destination});
      bookings := bookings[b := booking.(destination := destination)];
      records := Place(records, (destination, e.1), b, Makeup);
      reply := Committed;
    }

    method CancelRight(env: Env, b: nat) returns (reply: Reply)
      modifies this
      ensures Applies(old(Contents()), CancelMakeup(old(Contents()), env, b), reply, Contents())
    {
      if b >= |bookings| { return RolledBack(NotFound); }
      if bookings[b].status != Booked { return RolledBack(Conflict); }
      var e := bookings[b].entitlement;
      bookings := bookings[b := bookings[b].(status := Cancelled)];
      if e in entitlements { entitlements := entitlements[e := Returned(entitlements[e], env.today)]; }
      records := Released(records, b, OpenSheets(sheets));
      reply := Committed;
    }
  }
}

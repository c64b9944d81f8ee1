/** When each attendance command is accepted and what it leaves in the tables, in terms of the rows. */
module AttendanceDecisions {
  import opened Collections
  import opened Marks
  import opened Attendance
  import opened AttendanceSafety

  // ---------- initialization ----------

  lemma {:induction false} RosterExactly(records: map<Key, Record>, session: Id, roster: seq<(Id, Id)>, k: nat)
    requires k <= |roster| && forall x | x in records :: x.0 != session
    ensures var records' := AddRoster(records, session, roster, k);
            && (forall x: Key | x.0 != session :: (x in records' <==> x in records)
                                             && (x in records ==> records'[x] == records[x]))
            && (forall x :: (session, x) in records' <==> exists i | 0 <= i < k :: roster[i].0 == x)
            && (forall x | (session, x) in records' ::
                  exists i | 0 <= i < k ::
                    roster[i].0 == x && records'[(session, x)] == Record(Some(roster[i].1), Regular, None, Unmarked))
  {
    if k != 0 { RosterExactly(records, session, roster, k - 1); }
  }

  /** The first time, a session gets an open sheet and one unmarked regular record for each student of
      its class's trial and active enrollments, with that enrollment; later calls change nothing. */
  lemma SheetOpenedExactly(r: Register, env: Env, session: Id)
    requires Sound(r) && session in r.sessions
    ensures session in r.sheets ==> Initialize(r, env, session) == r
    ensures session !in r.sheets ==>
              var r' := Initialize(r, env, session);
              var roster := if r.sessions[session].class_ in env.roster then env.roster[r.sessions[session].class_]
                else [];
              && r' == r.(sheets := r.sheets[session := Open], records := r'.records)
              && (forall k: Key | k.0 != session :: (k in r'.records <==> k in r.records)
                                               && (k in r.records ==> r'.records[k] == r.records[k]))
              && (forall x :: (session, x) in r'.records <==> exists i | 0 <= i < |roster| :: roster[i].0 == x)
              && (forall x | (session, x) in r'.records ::
                    exists i | 0 <= i < |roster| ::
                      && roster[i].0 == x
                      && r'.records[(session, x)] == Record(Some(roster[i].1), Regular, None, Unmarked))
  {
    InitializeOpens(r, env, session);
    if session in r.sheets {
      assert Initialize(r, env, session).records == r.records;
    } else {
      forall k | k in r.records ensures k.0 != session { assert RecordOk(r, k); }
      var roster := RosterOf(env, r.sessions[session].class_);
      RosterExactly(r.records, session, roster, |roster|);
      forall i: nat | i < |r.bookings| ensures !Targets(r.bookings[i], session) { assert BookingOk(r, None, i); }
      NothingPlaced(AddRoster(r.records, session, roster, |roster|), r.bookings, session, |r.bookings|);
    }
  }

  // ---------- marking ----------

  /** A record is marked exactly on a scheduled session whose sheet is open; a makeup's as made up or
      missed, a regular one as anything but made up. Nothing else changes. */
  lemma MarkedExactly(r: Register, env: Env, key: Key, mark: Mark)
    requires Sound(r)
    ensures Try(r, env, MarkRecord(key, mark)).Done?
            <==> && key in r.records && r.sheets[key.0] == Open && r.sessions[key.0].status == Scheduled
                 && if r.records[key].source == FromMakeup then mark == Makeup || mark == AbsentUnexcused
                    else mark != Makeup
    ensures Try(r, env, MarkRecord(key, mark)).Done? ==>
              Step(r, env, MarkRecord(key, mark))
              == r.(records := r.records[key := r.records[key].(mark := mark)])
    ensures key !in r.records ==> Try(r, env, MarkRecord(key, mark)) == Refused(NotFound)
  {
    if key in r.records { assert RecordOk(r, key); }
  }

  // ---------- finalization ----------

  /** A session is finalized exactly when it is scheduled and every one of its records is marked; a
      session without a sheet, when its class has nobody to mark. */
  lemma FinalizedExactly(r: Register, env: Env, session: Id)
    requires Sound(r)
    ensures Try(r, env, FinalizeSession(session)).Done?
            <==> && session in r.sessions && r.sessions[session].status == Scheduled
                 && if session in r.sheets
                    then r.sheets[session] == Open
                         && forall k | k in r.records && k.0 == session :: r.records[k].mark != Unmarked
                    else r.sessions[session].class_ !in env.roster || env.roster[r.sessions[session].class_] == []
  {
    if session in r.sessions {
      SheetOpenedExactly(r, env, session);
      var ready := Initialize(r, env, session);
      if session !in r.sheets {
        var roster := RosterOf(env, r.sessions[session].class_);
        if roster != [] {
          assert (session, roster[0].0) in ready.records;
        } else {
          forall k | k in ready.records ensures k.0 != session {
            assert k == (k.0, k.1);
          }
        }
      }
    }
  }

  /** Who is entitled by a finalized session: whoever was before, and every regular excused absence of
      the session whose enrollment is not on trial; for thirty days from the session. */
  lemma FinalizeGrants(r: Register, env: Env, session: Id)
    requires Sound(r) && Try(r, env, FinalizeSession(session)).Done?
    ensures var ready, r' := Initialize(r, env, session), Step(r, env, FinalizeSession(session));
            && (forall k :: k in r'.entitlements
                  <==> k in r.entitlements
                       || (k.0 == session && k in ready.records && ready.records[k].mark == AbsentExcused
                           && ready.records[k].source == Regular
                           && (ready.records[k].enrollment.Some? ==>
                                 ready.records[k].enrollment.value !in env.trials)))
            && (forall k | k in r'.entitlements && k !in r.entitlements ::
                  r'.entitlements[k]
                  == Entitlement(Available, r.sessions[session].date + 30, ready.records[k].enrollment))
  {
    InitializeOpens(r, env, session);
    FinalizeExactly(r, env, session);
  }

  /** The booked booking of the session settles by the mark of its student's record alone. */
  lemma FinalizeSettles(r: Register, env: Env, session: Id)
    requires Sound(r) && Try(r, env, FinalizeSession(session)).Done?
    ensures var r' := Step(r, env, FinalizeSession(session));
            && |r'.bookings| == |r.bookings|
            && (forall i: nat | i < |r.bookings| ::
                  SettledByMark(r, r', env.today, session, i))
            && (forall e | e in r.entitlements
                           && (forall i: nat | i < |r.bookings| && r.bookings[i].entitlement == e ::
                                 r.bookings[i].status != Booked || r.bookings[i].destination != session) ::
                  e in r'.entitlements && r'.entitlements[e] == r.entitlements[e])
            && session in r'.sheets && session in r'.sessions
            && r'.sheets[session] == Locked && r'.sessions[session].status == Finished
  {
    SheetOpenedExactly(r, env, session);
    FinalizeExactly(r, env, session);
    var r' := Step(r, env, FinalizeSession(session));
    forall i: nat | i < |r.bookings| ensures SettledByMark(r, r', env.today, session, i) {
      BookingSettles(r, env, session, i);
    }
    forall e | e in r.entitlements
               && forall i: nat | i < |r.bookings| && r.bookings[i].entitlement == e ::
                    r.bookings[i].status != Booked || r.bookings[i].destination != session
      ensures e in r'.entitlements && r'.entitlements[e] == r.entitlements[e]
    {
    }
  }

  /** What became of the i-th booking and its entitlement. */
  ghost predicate SettledByMark(r: Register, r': Register, today: int, session: Id, i: nat)
    requires i < |r.bookings| == |r'.bookings|
  {
    var was, e := r.bookings[i], r.bookings[i].entitlement;
    if was.status == Booked && was.destination == session then
      && (session, e.1) in r.records && e in r.entitlements && e in r'.entitlements
      && var mark := r.records[(session, e.1)].mark;
         && r'.bookings[i] == was.(status := if mark == Makeup then Used else Cancelled)
         && r'.entitlements[e]
            == r.entitlements[e].(status := if mark == Makeup then Consumed
                                  else if today > r.entitlements[e].expires then Expired else Available)
    else
      r'.bookings[i] == was
  }

  lemma BookingSettles(r: Register, env: Env, session: Id, i: nat)
    requires Sound(r) && Try(r, env, FinalizeSession(session)).Done? && i < |r.bookings|
    ensures |Step(r, env, FinalizeSession(session)).bookings| == |r.bookings|
    ensures SettledByMark(r, Step(r, env, FinalizeSession(session)), env.today, session, i)
  {
    SheetOpenedExactly(r, env, session);
    FinalizeExactly(r, env, session);
    assert BookingOk(r, None, i);
    if r.bookings[i].status == Booked && r.bookings[i].destination == session {
      var ready := Initialize(r, env, session);
      assert ready == r;
      MissedOrShown(r, session, r.bookings[i].entitlement);
      if Attended(r.records, r.bookings, i) { assert Shown(r, session, i); } else { assert NoShow(r, session, i); }
    }
  }

  // ---------- correction ----------

  /** A record is corrected exactly on a locked sheet, for a reason, to another mark that is not
      UNMARKED, fits its source, and does not take the absence from a booked or used entitlement. */
  lemma CorrectedExactly(r: Register, env: Env, key: Key, mark: Mark, reason: string)
    requires Sound(r)
    ensures Try(r, env, CorrectRecord(key, mark, reason)).Done?
            <==> && key in r.records && r.sheets[key.0] == Locked && reason != "" && mark != Unmarked
                 && mark != r.records[key].mark
                 && (if r.records[key].source == FromMakeup then mark == Makeup || mark == AbsentUnexcused
                     else mark != Makeup)
                 && (key in r.entitlements ==>
                       r.entitlements[key].status != Reserved && r.entitlements[key].status != Consumed)
  {
    if key in r.records { assert RecordOk(r, key); }
    if key in r.entitlements { assert RightOk(r, key); }
  }

  function CorrectedRight(right: Entitlement, mark: Mark, today: int): Entitlement {
    match right.status
    case Available => if mark == AbsentExcused then right else right.(status := Revoked)
    case Revoked =>
      if mark != AbsentExcused then right
      else if today > right.expires then right.(status := Expired) else right.(status := Available)
    case _ => right
  }

  /** With its record an entitlement is revoked, or revived as available or, after its date, expired. */
  lemma CorrectionFollowed(r: Register, env: Env, key: Key, mark: Mark, reason: string)
    requires Sound(r) && Try(r, env, CorrectRecord(key, mark, reason)).Done? && key in r.entitlements
    ensures Step(r, env, CorrectRecord(key, mark, reason))
            == r.(records := r.records[key := r.records[key].(mark := mark)],
                  entitlements := r.entitlements[key := CorrectedRight(r.entitlements[key], mark, env.today)])
  {
    assert RightOk(r, key);
    assert r.entitlements[key := r.entitlements[key]] == r.entitlements;
  }

  /** Without one, a record corrected to excused entitles every regular excused absence of its session
      that has no entitlement yet and is not of an enrollment on trial. */
  lemma CorrectionGrants(r: Register, env: Env, key: Key, mark: Mark, reason: string)
    requires Sound(r) && Try(r, env, CorrectRecord(key, mark, reason)).Done? && key !in r.entitlements
    ensures var r' := Step(r, env, CorrectRecord(key, mark, reason));
            && r' == r.(records := r.records[key := r.records[key].(mark := mark)], entitlements := r'.entitlements)
            && (forall k :: k in r'.entitlements
                  <==> k in r.entitlements
                       || (mark == AbsentExcused && k.0 == key.0 && k in r'.records
                           && r'.records[k].mark == AbsentExcused && r'.records[k].source == Regular
                           && (r'.records[k].enrollment.Some? ==> r'.records[k].enrollment.value !in env.trials)))
            && (forall k | k in r'.entitlements ::
                  r'.entitlements[k]
                  == if k in r.entitlements then r.entitlements[k]
                     else Entitlement(Available, r.sessions[key.0].date + 30, r'.records[k].enrollment))
  {
    assert RecordOk(r, key);
    var r1 := r.(records := r.records[key := r.records[key].(mark := mark)]);
    if mark == AbsentExcused {
      assert Step(r, env, CorrectRecord(key, mark, reason)) == CreateEntitlements(r1, env, key.0);
    } else {
      assert Step(r, env, CorrectRecord(key, mark, reason)) == r1;
    }
  }

  // ---------- booking ----------

  /** The destination can take the student: scheduled in a known class of the origin's course and, where
      the origin has one, level; no later than the expiry; not locked; with no record of the student but
      an unmarked regular one; and with a seat beside the others. */
  ghost predicate Takes(r: Register, env: Env, destination: Id, e: Key)
    requires e in r.entitlements
  {
    && destination in r.sessions && e.0 in r.sessions
    && var target, origin := r.sessions[destination], r.sessions[e.0];
       && target.status == Scheduled && target.date <= r.entitlements[e].expires
       && target.class_ in env.classes && origin.class_ in env.classes
       && var to, from_ := env.classes[target.class_], env.classes[origin.class_];
          && to.course == from_.course && (from_.level.None? || to.level == from_.level)
          && (destination in r.sheets ==> r.sheets[destination] == Open)
          && ((destination, e.1) in r.records ==>
                r.records[(destination, e.1)].source == Regular && r.records[(destination, e.1)].mark == Unmarked)
          && (to.capacity.Some? ==>
                |Others(Initialize(r, env, destination).records, destination, e.1)| < to.capacity.value)
  }

  /** Everyone but the student with a record in the session. */
  function Others(records: map<Key, Record>, session: Id, student: Id): set<Id> {
    set k | k in records && k.0 == session && k.1 != student :: k.1
  }

  lemma OthersSit(r: Register, session: Id, student: Id)
    requires Sound(r)
    ensures Occupants(r, session) - {student} == Others(r.records, session, student)
  {
    OccupantsAre(r, session);
    forall i: nat | i < |r.bookings| && Targets(r.bookings[i], session)
      ensures (session, r.bookings[i].entitlement.1) in r.records
    {
      assert BookingOk(r, None, i);
    }
    forall x ensures x in Others(r.records, session, student) <==> (session, x) in r.records && x != student {
      if (session, x) in r.records && x != student {
        assert (session, x).1 == x;
      }
    }
  }

  lemma SeatedExactly(r: Register, env: Env, session: Id, student: Id)
    requires Sound(r) && ClassOf(r, env, session).Some? && session in r.sheets
    ensures SeatError(r, env, session, student).None?
            <==> && r.sheets[session] == Open
                 && ((session, student) in r.records ==>
                       && r.records[(session, student)].source == Regular
                       && r.records[(session, student)].mark == Unmarked)
                 && var capacity := ClassOf(r, env, session).value.capacity;
                    capacity.Some? ==> |Others(r.records, session, student)| < capacity.value
  {
    OthersSit(r, session, student);
    forall i: nat | i < |r.bookings| && Targets(r.bookings[i], session)
      ensures (session, r.bookings[i].entitlement.1) in r.records
    {
      assert BookingOk(r, None, i);
    }
  }

  lemma TakesExactly(r: Register, env: Env, destination: Id, e: Key)
    requires Sound(r) && e in r.entitlements && e.0 in r.sessions
    ensures Takes(r, env, destination, e)
            <==> && DestinationError(r, env, e.0, destination, r.entitlements[e].expires).None?
                 && SeatError(Initialize(r, env, destination), env, destination, e.1).None?
  {
    if destination in r.sessions && ClassOf(r, env, destination).Some? {
      var ready := Initialize(r, env, destination);
      InitializeSound(r, env, destination);
      SheetOpenedExactly(r, env, destination);
      assert ClassOf(ready, env, destination) == ClassOf(r, env, destination);
      SeatedExactly(ready, env, destination, e.1);
      if (destination, e.1) in r.records { assert RecordOk(r, (destination, e.1)); }
    }
  }

  /** An entitlement is booked exactly while it is available, not past its expiry and its session is
      completed, at a destination that takes its student. */
  lemma BookedExactly(r: Register, env: Env, e: Key, destination: Id)
    requires Sound(r)
    ensures Try(r, env, Book(e, destination)).Done?
            <==> && e in r.entitlements && r.entitlements[e].status == Available
                 && env.today <= r.entitlements[e].expires && r.sessions[e.0].status == Finished
                 && Takes(r, env, destination, e)
    ensures e !in r.entitlements ==> Try(r, env, Book(e, destination)) == Refused(NotFound)
  {
    if e in r.entitlements {
      assert RightOk(r, e);
      TakesExactly(r, env, destination, e);
      if destination in r.sessions && Takes(r, env, destination, e) {
        InitializeSound(r, env, destination);
        IndexesNeverRefuse(Initialize(r, env, destination), env, e, destination);
      }
    }
  }

  /** A booking moves exactly while it is booked and its entitlement not past its expiry, to another
      session that takes its student; the session it leaves is never locked. */
  lemma RebookedExactly(r: Register, env: Env, b: nat, destination: Id)
    requires Sound(r)
    ensures Try(r, env, Rebook(b, destination)).Done?
            <==> && b < |r.bookings| && r.bookings[b].status == Booked && r.bookings[b].destination != destination
                 && var e := r.bookings[b].entitlement;
                    && e in r.entitlements && env.today <= r.entitlements[e].expires
                    && r.sessions[e.0].status == Finished && Takes(r, env, destination, e)
    ensures b >= |r.bookings| ==> Try(r, env, Rebook(b, destination)) == Refused(NotFound)
  {
    if b < |r.bookings| {
      var e := r.bookings[b].entitlement;
      assert BookingOk(r, None, b);
      assert RightOk(r, e);
      TakesExactly(r, env, destination, e);
      if destination in r.sessions && Takes(r, env, destination, e) {
        InitializeSound(r, env, destination);
        IndexesNeverRefuse(Initialize(r, env, destination), env, e, destination);
        SheetOpenedExactly(r, env, destination);
      }
    }
  }

  /** A booking is cancelled exactly while it is booked: its entitlement is available again or, past its
      expiry, expired; its record goes, or is the roster's again. */
  lemma CancelledExactly(r: Register, env: Env, b: nat)
    requires Sound(r)
    ensures Try(r, env, Cancel(b)).Done? <==> b < |r.bookings| && r.bookings[b].status == Booked
    ensures Try(r, env, Cancel(b)).Done? ==>
              var r', e, key := Step(r, env, Cancel(b)), r.bookings[b].entitlement,
                (r.bookings[b].destination, r.bookings[b].entitlement.1);
              && e in r.entitlements && key in r.records
              && r' == r.(bookings := r.bookings[b := Booking(e, key.0, Cancelled)],
                          entitlements := r.entitlements[e := r.entitlements[e].(
                            status := if env.today > r.entitlements[e].expires then Expired else Available)],
                          records := if r.records[key].enrollment.None? then r.records - {key}
                            else r.records[key := Record(r.records[key].enrollment, Regular, None, Unmarked)])
  {
    if b < |r.bookings| && r.bookings[b].status == Booked {
      assert BookingOk(r, None, b);
      CancelReleases(r, b);
    }
  }

  lemma CancelReleases(r: Register, b: nat)
    requires Sound(r) && b < |r.bookings| && r.bookings[b].status == Booked
    ensures var key := KeyOf(r.bookings[b]);
            key in r.records
            && Released(r.records, b, OpenSheets(r.sheets))
               == if r.records[key].enrollment.None? then r.records - {key}
                  else r.records[key := Record(r.records[key].enrollment, Regular, None, Unmarked)]
  {
    assert BookingOk(r, None, b);
    forall k | k in r.records && r.records[k].booking == Some(b) ensures k == KeyOf(r.bookings[b]) {
      OneRecord(r, b, k);
    }
  }
}

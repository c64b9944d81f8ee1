/** Enrollment histories and pause dates over runs of CRM and enrollment commands. */
module CrmHistory {
  import opened Collections
  import opened Ordering
  import opened Enrollments
  import opened EnrollmentSafety
  import opened EnrollmentHistory
  import opened EnrollmentPauses
  import opened Crm
  import CrmSafety

  lemma EnrollIntoClocked(t: Table, env: Env, trial: Option<Id>, student: Id, class_: Id)
    requires Past(t, env.now) && (trial.Some? ==> trial.value < |t.rows|) && env.ulid(0) != env.ulid(1)
    requires EnrollInto(t, env, trial, student, class_).InClass?
    ensures Clocked(EnrollInto(t, env, trial, student, class_).table, env.now)
  {
    match trial
    case Some(id) =>
      if t.rows[id].class_ == class_ {
        TransitionClocked(t, env, id, Activate, None);
      } else {
        TransitionClocked(t, env, id, Withdraw, None);
        ReenrollClocked(Transition(t, env, id, Withdraw, None).table, env, id, student, class_, Active, None);
      }
    case None => CreateClocked(t, env, student, class_, Active, None);
  }

  lemma LostClocked(o: Office, env: CrmEnv, id: Id, reason: nat)
    requires CrmSafety.Consistent(o) && Past(o.table, env.base.now) && id in o.leads && MarkLost(o, env, id, reason).Ok?
    ensures Clocked(MarkLost(o, env, id, reason).office.table, env.base.now)
  {
    var o1 := SetLead(o, id, o.leads[id].(status := Lost, lostReason := Some(reason)));
    forall b | b in o1.bookings ensures CrmSafety.BookingKnown(o1, b) { assert CrmSafety.BookingKnown(o, b); }
    if i: nat :| i < |o.bookings| && o.bookings[i].lead == id && o.bookings[i].status == Booked {
      CrmSafety.OneDropped(o1, env, id, i, 0);
      CrmSafety.DropWorks(o1, env, i);
      TransitionClocked(o.table, env.base, o.bookings[i].enrollment, Withdraw, None);
    } else {
      CrmSafety.NoneDropped(o1, env, id, 0);
    }
  }

  lemma StepClocked(o: Office, env: CrmEnv, c: CrmCommand)
    requires CrmSafety.Consistent(o) && Past(o.table, env.base.now) && Accepted(c)
             && env.base.ulid(0) != env.base.ulid(1)
    ensures Clocked(Step(o, env, c).table, env.base.now)
  {
    if Try(o, env, c).Ok? {
      match c
      case EnrollmentCommand(command) => PerformClocked(o.table, env.base, command);
      case BookCommand(id, session, choice) =>
        var picked := Ensure(env, o.leads[id], choice, TrialDefaults(o.bookings, id));
        CreateClocked(o.table, WithStudents(env.base, picked.students), picked.people.student,
                      env.sessions[session].class_, Trial, None);
      case CancelCommand(k) => TransitionClocked(o.table, env.base, o.bookings[k].enrollment, Withdraw, None);
      case LostCommand(id, reason) => LostClocked(o, env, id, reason);
      case ConvertCommand(id, choice, class_) =>
        var picked := Ensure(env, o.leads[id], choice, TrialDefaults(o.bookings, id));
        var trial := OpenTrial(o.bookings, o.table.rows, id, picked.people.student);
        EnrollIntoClocked(o.table, WithStudents(env.base, picked.students), trial, picked.people.student, class_);
      case _ =>
    }
  }

  /** Calls happen at increasing times and generate distinct ids. */
  ghost predicate Ticking(calls: seq<CrmSafety.Call>) {
    && (forall i | 0 <= i < |calls| :: calls[i].env.base.ulid(0) != calls[i].env.base.ulid(1))
    && (forall i | 0 < i < |calls| :: calls[i - 1].env.base.now < calls[i].env.base.now)
  }

  lemma {:induction false} RunClocked(calls: seq<CrmSafety.Call>)
    requires CrmSafety.Proper(calls) && Ticking(calls) && |calls| != 0
    ensures Clocked(CrmSafety.Run(calls).table, calls[|calls| - 1].env.base.now)
  {
    var n := |calls| - 1;
    CrmSafety.ProperPrefix(calls, n);
    CrmSafety.RunSafe(calls[..n]);
    if n != 0 { RunClocked(calls[..n]); }
    StepClocked(CrmSafety.Run(calls[..n]), calls[n].env, calls[n].command);
  }

  lemma RunTimed(calls: seq<CrmSafety.Call>, id: Id)
    requires CrmSafety.Proper(calls) && Ticking(calls) && id < |CrmSafety.Run(calls).table.rows|
    ensures var t := CrmSafety.Run(calls).table;
            Timed(History(t.events, id)) && Tells(History(t.events, id), t.rows[id].status)
  {
    CrmSafety.RunSafe(calls);
    RunClocked(calls);
  }

  /** For every enrollment of every run: the last event shown tells its current status; and the
      events shown chain from status to status if and only if, where its creation wrote two
      events at once, their ids happen to be in order. */
  lemma HistoryShown(calls: seq<CrmSafety.Call>, id: Id)
    requires CrmSafety.Proper(calls) && Ticking(calls) && id < |CrmSafety.Run(calls).table.rows|
    ensures var t := CrmSafety.Run(calls).table;
            var h, shown := History(t.events, id), Shown(t.events, id);
            && |shown| != 0 && shown[|shown| - 1].to == t.rows[id].status && multiset(shown) == multiset(h)
            && (Chained(shown) <==> (Twins(h) ==> h[0].id < h[1].id))
  {
    var t := CrmSafety.Run(calls).table;
    RunTimed(calls, id);
    ShownTells(History(t.events, id), t.rows[id].status);
  }

  // ---------- pause dates over runs ----------

  lemma TransitionKeepsExact(t: Table, env: Env, id: Id, verb: Verb, at: Option<int>)
    requires AllExact(t.rows)
    ensures AllExact(After(t, Transition(t, env, id, verb, at)).rows)
  {
    PauseExactly(t, env, TransitionCommand(id, verb, at));
  }

  lemma EnrollIntoKeepsExact(t: Table, env: Env, trial: Option<Id>, student: Id, class_: Id)
    requires AllExact(t.rows) && (trial.Some? ==> trial.value < |t.rows|)
    requires EnrollInto(t, env, trial, student, class_).InClass?
    ensures AllExact(EnrollInto(t, env, trial, student, class_).table.rows)
  {
    match trial
    case Some(id) =>
      if t.rows[id].class_ == class_ {
        TransitionKeepsExact(t, env, id, Activate, None);
      } else {
        TransitionKeepsExact(t, env, id, Withdraw, None);
        PauseExactly(Transition(t, env, id, Withdraw, None).table, env,
                     ReenrollCommand(id, student, class_, Active, None));
      }
    case None => PauseExactly(t, env, CreateCommand(student, class_, Active, None));
  }

  lemma LostKeepsExact(o: Office, env: CrmEnv, id: Id, reason: nat)
    requires CrmSafety.Consistent(o) && AllExact(o.table.rows) && id in o.leads && MarkLost(o, env, id, reason).Ok?
    ensures AllExact(MarkLost(o, env, id, reason).office.table.rows)
  {
    var o1 := SetLead(o, id, o.leads[id].(status := Lost, lostReason := Some(reason)));
    forall b | b in o1.bookings ensures CrmSafety.BookingKnown(o1, b) { assert CrmSafety.BookingKnown(o, b); }
    if i: nat :| i < |o.bookings| && o.bookings[i].lead == id && o.bookings[i].status == Booked {
      CrmSafety.OneDropped(o1, env, id, i, 0);
      CrmSafety.DropWorks(o1, env, i);
      TransitionKeepsExact(o.table, env.base, o.bookings[i].enrollment, Withdraw, None);
    } else {
      CrmSafety.NoneDropped(o1, env, id, 0);
    }
  }

  predicate TransfersPaused(o: Office, env: CrmEnv, c: CrmCommand)
    requires Accepted(c)
  {
    c.EnrollmentCommand? && MovesPaused(o.table, env.base, c.command)
  }

  lemma StepPauses(o: Office, env: CrmEnv, c: CrmCommand)
    requires CrmSafety.Consistent(o) && Accepted(c) && AllExact(o.table.rows)
    ensures AllExact(Step(o, env, c).table.rows) <==> !TransfersPaused(o, env, c)
    ensures TransfersPaused(o, env, c) ==> Stuck(Step(o, env, c).table.rows)
  {
    if Try(o, env, c).Ok? {
      match c
      case EnrollmentCommand(command) => PauseExactly(o.table, env.base, command);
      case BookCommand(id, session, choice) =>
        var picked := Ensure(env, o.leads[id], choice, TrialDefaults(o.bookings, id));
        PauseExactly(o.table, WithStudents(env.base, picked.students),
                     CreateCommand(picked.people.student, env.sessions[session].class_, Trial, None));
      case CancelCommand(k) => TransitionKeepsExact(o.table, env.base, o.bookings[k].enrollment, Withdraw, None);
      case LostCommand(id, reason) => LostKeepsExact(o, env, id, reason);
      case ConvertCommand(id, choice, class_) =>
        var picked := Ensure(env, o.leads[id], choice, TrialDefaults(o.bookings, id));
        var trial := OpenTrial(o.bookings, o.table.rows, id, picked.people.student);
        EnrollIntoKeepsExact(o.table, WithStudents(env.base, picked.students), trial, picked.people.student, class_);
      case _ =>
    }
  }

  /** The i-th call of a run transfers a paused enrollment. */
  ghost predicate TransfersPausedAt(calls: seq<CrmSafety.Call>, i: nat)
    requires CrmSafety.Proper(calls) && i < |calls|
  {
    TransfersPaused(CrmSafety.At(calls, i), calls[i].env, calls[i].command)
  }

  lemma PausesNext(calls: seq<CrmSafety.Call>, k: nat)
    requires CrmSafety.Proper(calls) && k < |calls|
    ensures var before, after := CrmSafety.At(calls, k).table.rows, CrmSafety.At(calls, k + 1).table.rows;
            && (AllExact(before) ==> (AllExact(after) <==> !TransfersPausedAt(calls, k)))
            && (AllExact(before) && TransfersPausedAt(calls, k) ==> Stuck(after))
            && (Stuck(before) ==> Stuck(after))
  {
    CrmSafety.RunNext(calls, k);
    CrmSafety.RunSafe(calls[..k]);
    var o, call := CrmSafety.At(calls, k), calls[k];
    if AllExact(o.table.rows) { StepPauses(o, call.env, call.command); }
    if Stuck(o.table.rows) {
      CrmSafety.StepConsistent(o, call.env, call.command);
      StuckStays(o.table, CrmSafety.At(calls, k + 1).table);
    }
  }

  lemma {:induction false} PausesUpTo(calls: seq<CrmSafety.Call>, k: nat)
    requires CrmSafety.Proper(calls) && k <= |calls|
    ensures var rows := CrmSafety.At(calls, k).table.rows;
            && (AllExact(rows) <==> forall i: nat | i < k :: !TransfersPausedAt(calls, i))
            && (AllExact(rows) || Stuck(rows))
  {
    if k != 0 {
      PausesUpTo(calls, k - 1);
      PausesNext(calls, k - 1);
      if Stuck(CrmSafety.At(calls, k).table.rows) { StuckNotExact(CrmSafety.At(calls, k).table.rows); }
      if Stuck(CrmSafety.At(calls, k - 1).table.rows) { StuckNotExact(CrmSafety.At(calls, k - 1).table.rows); }
    }
  }

  /** At the end of a run the pause date is set on exactly the PAUSED enrollments if and only if no
      accepted call of the run transferred a PAUSED one. */
  lemma PausedIffDated(calls: seq<CrmSafety.Call>)
    requires CrmSafety.Proper(calls)
    ensures AllExact(CrmSafety.Run(calls).table.rows) <==> forall i: nat | i < |calls| :: !TransfersPausedAt(calls, i)
  {
    PausesUpTo(calls, |calls|);
    assert calls[..|calls|] == calls;
  }
}

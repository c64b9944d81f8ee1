/** What every enrollment command keeps: capacities, one operational enrollment per student and
    class, end dates, lineage and a faithful history. */
module EnrollmentSafety {
  import opened Collections
  import opened Enrollments

  // ---------- the invariant ----------

  ghost predicate Fits(rows: seq<Enrollment>, classes: map<Id, Class>) {
    forall c | c in classes && classes[c].capacity.Some? :: Consumers(rows, c, None) <= classes[c].capacity.value
  }

  ghost predicate Housed(rows: seq<Enrollment>, classes: map<Id, Class>) {
    forall i | 0 <= i < |rows| :: rows[i].class_ in classes
  }

  ghost predicate UniquePairs(rows: seq<Enrollment>) {
    forall i, j | 0 <= i < j < |rows| && Operational(rows[i].status) && Operational(rows[j].status) ::
      rows[i].student != rows[j].student || rows[i].class_ != rows[j].class_
  }

  /** The end is dated if and only if terminal. A pause date belongs to a paused enrollment, or to
      one that a transfer closed while paused; only the one that continues it is paused undated. */
  predicate DatedRow(row: Enrollment) {
    && (row.endedAt.Some? <==> Terminal(row.status))
    && (row.pauseStartedAt.Some? ==> row.status == Paused || row.status == Withdrawn)
    && (row.status == Paused && row.pauseStartedAt.None? ==> row.source.Some?)
  }

  ghost predicate Dated(rows: seq<Enrollment>) {
    forall i | 0 <= i < |rows| :: DatedRow(rows[i])
  }

  predicate ClosedPaused(row: Enrollment) {
    row.status == Withdrawn && row.pauseStartedAt.Some?
  }

  predicate HasContinuation(rows: seq<Enrollment>, i: nat) {
    exists j | 0 <= j < |rows| :: rows[j].source == Some(i)
  }

  /** A withdrawn enrollment that keeps a pause date was not simply withdrawn: another continues it. */
  ghost predicate PausesContinued(rows: seq<Enrollment>) {
    forall i: nat | i < |rows| && ClosedPaused(rows[i]) :: HasContinuation(rows, i)
  }

  predicate LinkedAt(rows: seq<Enrollment>, i: nat)
    requires i < |rows|
  {
    match rows[i].source
    case None => true
    case Some(s) => s < i && Terminal(rows[s].status) && rows[s].student == rows[i].student
  }

  /** A source link points to an earlier, terminal enrollment of the same student. */
  ghost predicate Linked(rows: seq<Enrollment>) {
    forall i | 0 <= i < |rows| :: LinkedAt(rows, i)
  }

  function Of(id: Id): Event -> bool {
    (e: Event) => e.enrollment == id
  }

  function History(events: seq<Event>, id: Id): seq<Event> {
    Filter(events, Of(id))
  }

  /** Each event starts from the status the one before it ended in. */
  ghost predicate Chained(h: seq<Event>) {
    forall k | 0 < k < |h| :: h[k].from == Some(h[k - 1].to)
  }

  ghost predicate Tells(h: seq<Event>, status: Status) {
    |h| != 0 && Chained(h) && h[|h| - 1].to == status
  }

  ghost predicate Faithful(t: Table) {
    && (forall e | e in t.events :: e.enrollment < |t.rows|)
    && (forall i | 0 <= i < |t.rows| :: Tells(History(t.events, i), t.rows[i].status))
  }

  ghost predicate Sound(t: Table, classes: map<Id, Class>) {
    && Fits(t.rows, classes) && Housed(t.rows, classes) && UniquePairs(t.rows)
    && Dated(t.rows) && PausesContinued(t.rows) && Linked(t.rows) && Faithful(t)
  }

  /** Classes are never dropped and no capacity is lowered. */
  ghost predicate Raised(before: map<Id, Class>, after: map<Id, Class>) {
    forall c | c in before ::
      c in after && (after[c].capacity.Some?
                     ==> before[c].capacity.Some? && before[c].capacity.value <= after[c].capacity.value)
  }

  lemma SoundRaised(t: Table, before: map<Id, Class>, after: map<Id, Class>)
    requires Sound(t, before) && Raised(before, after)
    ensures Sound(t, after)
  {
    forall c | c in after && after[c].capacity.Some? ensures Consumers(t.rows, c, None) <= after[c].capacity.value {
      if c !in before { NoneConsume(t.rows, c); }
    }
  }

  lemma {:induction false} NoneConsume(rows: seq<Enrollment>, class_: Id)
    requires forall i | 0 <= i < |rows| :: rows[i].class_ != class_
    ensures Consumers(rows, class_, None) == 0
  {
    if |rows| != 0 {
      NoneConsume(rows[..|rows| - 1], class_);
    }
  }

  // ---------- counting consumers ----------

  function One(row: Enrollment, class_: Id): nat {
    if Takes(row, class_) then 1 else 0
  }

  lemma ConsumersSnoc(rows: seq<Enrollment>, row: Enrollment, class_: Id)
    ensures Consumers(rows + [row], class_, None) == Consumers(rows, class_, None) + One(row, class_)
  {
    assert (rows + [row])[..|rows|] == rows;
  }

  lemma {:induction false} ConsumersSame(rows: seq<Enrollment>, class_: Id, except: Id)
    requires |rows| <= except
    ensures Consumers(rows, class_, Some(except)) == Consumers(rows, class_, None)
  {
    if |rows| != 0 {
      ConsumersSame(rows[..|rows| - 1], class_, except);
    }
  }

  /** The count without one row, plus that row: for any value the row may take. */
  lemma {:induction false} ConsumersExcept(rows: seq<Enrollment>, i: Id, row: Enrollment, class_: Id)
    requires i < |rows|
    ensures Consumers(rows[i := row], class_, None) == Consumers(rows, class_, Some(i)) + One(row, class_)
  {
    var n := |rows| - 1;
    if i == n {
      assert rows[i := row][..n] == rows[..n];
      ConsumersSame(rows[..n], class_, i);
    } else {
      ConsumersExcept(rows[..n], i, row, class_);
      assert rows[i := row][..n] == rows[..n][i := row];
    }
  }

  lemma ConsumersUpdate(rows: seq<Enrollment>, i: Id, row: Enrollment, class_: Id)
    requires i < |rows|
    ensures Consumers(rows[i := row], class_, None)
            == Consumers(rows, class_, None) - One(rows[i], class_) + One(row, class_)
  {
    ConsumersExcept(rows, i, row, class_);
    ConsumersExcept(rows, i, rows[i], class_);
    assert rows[i := rows[i]] == rows;
  }

  // ---------- histories ----------

  lemma HistorySnoc(events: seq<Event>, e: Event, id: Id)
    ensures History(events + [e], id) == if e.enrollment == id then History(events, id) + [e] else History(events, id)
  {
    FilterSnoc(events, e, Of(id));
  }

  lemma {:induction false} NoHistory(events: seq<Event>, id: Id)
    requires forall e | e in events :: e.enrollment != id
    ensures History(events, id) == []
  {
    if |events| != 0 {
      NoHistory(events[..|events| - 1], id);
    }
  }

  /** A row was written and told as one more event. */
  lemma ToldOnce(t: Table, id: Id, row: Enrollment, e: Event)
    requires Faithful(t) && id < |t.rows|
    requires e.enrollment == id && e.from == Some(t.rows[id].status) && e.to == row.status
    ensures Faithful(Table(t.rows[id := row], t.events + [e]))
  {
    var t' := Table(t.rows[id := row], t.events + [e]);
    forall i | 0 <= i < |t'.rows| ensures Tells(History(t'.events, i), t'.rows[i].status) {
      HistorySnoc(t.events, e, i);
      assert Tells(History(t.events, i), t.rows[i].status);
    }
  }

  /** A row was added and told by its first event. */
  lemma ToldFirst(t: Table, row: Enrollment, e: Event)
    requires Faithful(t)
    requires e.enrollment == |t.rows| && e.to == row.status
    ensures Faithful(Table(t.rows + [row], t.events + [e]))
  {
    var t' := Table(t.rows + [row], t.events + [e]);
    NoHistory(t.events, |t.rows|);
    forall i | 0 <= i < |t'.rows| ensures Tells(History(t'.events, i), t'.rows[i].status) {
      HistorySnoc(t.events, e, i);
      assert i < |t.rows| ==> Tells(History(t.events, i), t.rows[i].status);
    }
  }

  // ---------- adding and changing a row ----------

  ghost predicate Admits(t: Table, classes: map<Id, Class>, row: Enrollment) {
    && row.class_ in classes
    && (Operational(row.status) && classes[row.class_].capacity.Some? ==>
          Consumers(t.rows, row.class_, None) < classes[row.class_].capacity.value)
    && (Operational(row.status) ==> !PairTaken(t.rows, row.student, row.class_))
    && DatedRow(row)
  }

  ghost predicate RowsSound(rows: seq<Enrollment>, classes: map<Id, Class>) {
    Fits(rows, classes) && Housed(rows, classes) && UniquePairs(rows) && Dated(rows)
  }

  lemma RowAdded(t: Table, classes: map<Id, Class>, row: Enrollment)
    requires RowsSound(t.rows, classes) && Admits(t, classes, row)
    ensures RowsSound(t.rows + [row], classes)
  {
    var rows := t.rows + [row];
    forall c | c in classes && classes[c].capacity.Some? ensures Consumers(rows, c, None) <= classes[c].capacity.value {
      ConsumersSnoc(t.rows, row, c);
    }
    assert UniquePairs(rows) by {
      forall i, j | 0 <= i < j < |rows| && Operational(rows[i].status) && Operational(rows[j].status)
        ensures rows[i].student != rows[j].student || rows[i].class_ != rows[j].class_
      {
        if j == |t.rows| { assert rows[i] == t.rows[i]; }
      }
    }
  }

  /** A row kept its student and class, and did not become operational again. */
  lemma RowChanged(rows: seq<Enrollment>, classes: map<Id, Class>, id: Id, row: Enrollment)
    requires RowsSound(rows, classes) && id < |rows|
    requires row.student == rows[id].student && row.class_ == rows[id].class_
    requires Operational(row.status) ==> Operational(rows[id].status)
    requires DatedRow(row)
    ensures RowsSound(rows[id := row], classes)
  {
    forall c | c in classes && classes[c].capacity.Some?
      ensures Consumers(rows[id := row], c, None) <= classes[c].capacity.value
    {
      ConsumersUpdate(rows, id, row, c);
    }
  }

  lemma LinkAdded(rows: seq<Enrollment>, row: Enrollment)
    requires Linked(rows)
    requires row.source.Some? ==> row.source.value < |rows| && Terminal(rows[row.source.value].status)
                                  && rows[row.source.value].student == row.student
    ensures Linked(rows + [row])
  {
    var rows' := rows + [row];
    forall i | 0 <= i < |rows'| ensures LinkedAt(rows', i) {
      if i < |rows| { assert LinkedAt(rows, i); }
    }
  }

  lemma LinkChanged(rows: seq<Enrollment>, id: Id, row: Enrollment)
    requires Linked(rows) && id < |rows|
    requires row.student == rows[id].student && row.source == rows[id].source
    requires !Terminal(rows[id].status)
    ensures Linked(rows[id := row])
  {
    var rows' := rows[id := row];
    forall i | 0 <= i < |rows'| ensures LinkedAt(rows', i) {
      assert LinkedAt(rows, i);
    }
  }

  /** Rows keep their sources, and any row newly closed with a pause date is continued. */
  lemma PausesStayContinued(rows: seq<Enrollment>, rows': seq<Enrollment>)
    requires PausesContinued(rows) && |rows| <= |rows'|
    requires forall i | 0 <= i < |rows| :: rows'[i].source == rows[i].source
    requires forall i: nat | i < |rows'| && ClosedPaused(rows'[i]) ::
      (i < |rows| && ClosedPaused(rows[i])) || HasContinuation(rows', i)
    ensures PausesContinued(rows')
  {
    forall i: nat | i < |rows'| && ClosedPaused(rows'[i]) ensures HasContinuation(rows', i) {
      if i < |rows| && ClosedPaused(rows[i]) {
        var j :| 0 <= j < |rows| && rows[j].source == Some(i);
        assert rows'[j].source == Some(i);
      }
    }
  }

  // ---------- every command keeps it ----------

  lemma CreateSound(t: Table, env: Env, student: Id, class_: Id, status: Status, enrolledAt: Option<int>)
    requires Sound(t, env.classes) && Initial(status)
    ensures Sound(After(t, Create(t, env, student, class_, status, enrolledAt)), env.classes)
  {
    var o := Create(t, env, student, class_, status, enrolledAt);
    if o.Done? {
      var id, row := |t.rows|, o.table.rows[|t.rows|];
      RowAdded(t, env.classes, row);
      PausesStayContinued(t.rows, o.table.rows);
      LinkAdded(t.rows, row);
      var e := CreatedEvents(id, status, env)[0];
      ToldFirst(t, row, e);
      var t1 := Table(t.rows + [row], t.events + [e]);
      if status != Pending {
        var e' := CreatedEvents(id, status, env)[1];
        ToldOnce(t1, id, row, e');
        assert t1.rows[id := row] == t1.rows;
        assert t1.events + [e'] == t.events + CreatedEvents(id, status, env);
      } else {
        assert t.events + [e] == t.events + CreatedEvents(id, status, env);
      }
    }
  }

  lemma TransitionSound(t: Table, env: Env, id: Id, verb: Verb, effectiveAt: Option<int>)
    requires Sound(t, env.classes)
    ensures Sound(After(t, Transition(t, env, id, verb, effectiveAt)), env.classes)
  {
    var o := Transition(t, env, id, verb, effectiveAt);
    if o.Done? {
      var row := Moved(t.rows[id], Target(verb), At(env, effectiveAt));
      RowChanged(t.rows, env.classes, id, row);
      LinkChanged(t.rows, id, row);
      PausesStayContinued(t.rows, o.table.rows);
      ToldOnce(t, id, row, Event(id, KindOf(verb), Some(t.rows[id].status), Target(verb), env.now, env.ulid(0)));
    }
  }

  /** Closing a row frees a seat of its class and takes none elsewhere. */
  lemma ClosedAdmits(t: Table, classes: map<Id, Class>, id: Id, closed: Enrollment, row: Enrollment)
    requires id < |t.rows| && Admits(t, classes, row) && !Operational(closed.status)
    ensures Admits(Table(t.rows[id := closed], t.events), classes, row)
  {
    ConsumersUpdate(t.rows, id, closed, row.class_);
    var rows := t.rows[id := closed];
    forall i | 0 <= i < |rows| && Takes(rows[i], row.class_)
      ensures Takes(t.rows[i], row.class_) && rows[i] == t.rows[i]
    {
    }
  }

  lemma TransferRows(t: Table, classes: map<Id, Class>, id: Id, closed: Enrollment, row: Enrollment)
    requires RowsSound(t.rows, classes) && Linked(t.rows) && id < |t.rows| && Admits(t, classes, row)
    requires closed == t.rows[id].(status := Withdrawn, endedAt := closed.endedAt) && closed.endedAt.Some?
    requires !Terminal(t.rows[id].status) && row.source == Some(id) && row.student == closed.student && DatedRow(closed)
    ensures RowsSound(t.rows[id := closed] + [row], classes) && Linked(t.rows[id := closed] + [row])
  {
    RowChanged(t.rows, classes, id, closed);
    LinkChanged(t.rows, id, closed);
    ClosedAdmits(t, classes, id, closed, row);
    RowAdded(Table(t.rows[id := closed], t.events), classes, row);
    LinkAdded(t.rows[id := closed], row);
  }

  lemma TransferTold(t: Table, id: Id, closed: Enrollment, row: Enrollment, e1: Event, e2: Event)
    requires Faithful(t) && id < |t.rows|
    requires e1.enrollment == id && e1.from == Some(t.rows[id].status) && e1.to == closed.status
    requires e2.enrollment == |t.rows| && e2.to == row.status
    ensures Faithful(Table(t.rows[id := closed] + [row], t.events + [e1, e2]))
  {
    ToldOnce(t, id, closed, e1);
    ToldFirst(Table(t.rows[id := closed], t.events + [e1]), row, e2);
    assert t.events + [e1] + [e2] == t.events + [e1, e2];
  }

  lemma TransferSound(t: Table, env: Env, id: Id, destination: Id, effectiveAt: Option<int>)
    requires Sound(t, env.classes)
    ensures Sound(After(t, Transfer(t, env, id, destination, effectiveAt)), env.classes)
  {
    var o := Transfer(t, env, id, destination, effectiveAt);
    if o.Done? {
      var source, at := t.rows[id], At(env, effectiveAt);
      var closed, row := Closed(source, at), Continued(source, id, destination, at);
      TransferRows(t, env.classes, id, closed, row);
      assert o.table.rows[|t.rows|].source == Some(id);
      PausesStayContinued(t.rows, o.table.rows);
      TransferTold(t, id, closed, row, Event(id, Transferred, Some(source.status), Withdrawn, env.now, env.ulid(0)),
                   Event(|t.rows|, Transferred, None, source.status, env.now, env.ulid(1)));
    }
  }

  lemma ReenrollSound(t: Table, env: Env, id: Id, student: Id, class_: Id, status: Status, enrolledAt: Option<int>)
    requires Sound(t, env.classes) && Initial(status)
    ensures Sound(After(t, Reenroll(t, env, id, student, class_, status, enrolledAt)), env.classes)
  {
    var o := Reenroll(t, env, id, student, class_, status, enrolledAt);
    if o.Done? {
      var row := o.table.rows[|t.rows|];
      RowAdded(t, env.classes, row);
      LinkAdded(t.rows, row);
      PausesStayContinued(t.rows, o.table.rows);
      ToldFirst(t, row, Event(|t.rows|, Reenrolled, Some(t.rows[id].status), status, env.now, env.ulid(0)));
    }
  }

  /** Every command keeps every class within its capacity, the pairs unique, end dates set iff
      terminal, lineage sound and histories faithful. */
  lemma PerformSound(t: Table, env: Env, c: Command)
    requires Sound(t, env.classes) && WellFormed(c)
    ensures Sound(After(t, Perform(t, env, c)), env.classes)
  {
    match c
    case CreateCommand(student, class_, status, at) => CreateSound(t, env, student, class_, status, at);
    case TransitionCommand(id, verb, at) => TransitionSound(t, env, id, verb, at);
    case TransferCommand(id, class_, at) => TransferSound(t, env, id, class_, at);
    case ReenrollCommand(id, student, class_, status, at) => ReenrollSound(t, env, id, student, class_, status, at);
  }

  /** What no command changes: a row's student, class and source, its start once it has one,
      everything about a terminal row, and the events already written. */
  ghost predicate Extends(before: Table, after: Table) {
    && |before.rows| <= |after.rows| && before.events <= after.events
    && (forall i | 0 <= i < |before.rows| ::
          && after.rows[i].student == before.rows[i].student && after.rows[i].class_ == before.rows[i].class_
          && after.rows[i].source == before.rows[i].source
          && (before.rows[i].startedAt.Some? ==> after.rows[i].startedAt == before.rows[i].startedAt)
          && (after.rows[i].status == Active && before.rows[i].status != Active ==> after.rows[i].startedAt.Some?)
          && (Terminal(before.rows[i].status) ==> after.rows[i] == before.rows[i])
          && (after.rows[i].status == Pending ==> before.rows[i].status == Pending)
          && (after.rows[i].status == Trial ==> before.rows[i].status == Pending || before.rows[i].status == Trial))
  }

  lemma PerformExtends(t: Table, env: Env, c: Command)
    requires WellFormed(c)
    ensures Extends(t, After(t, Perform(t, env, c)))
  {}

  lemma ExtendsTransitive(a: Table, b: Table, c: Table)
    requires Extends(a, b) && Extends(b, c)
    ensures Extends(a, c)
  {}

  /** While the classes fit, a transition is never refused for want of a seat: the enrollment
      already holds the one it needs. */
  lemma TransitionNeverFull(t: Table, env: Env, id: Id, next: Status)
    requires Sound(t, env.classes) && id < |t.rows| && Operational(t.rows[id].status)
    ensures CapacityError(t, env, t.rows[id].class_, next, Some(id)).None?
  {
    ConsumersExcept(t.rows, id, t.rows[id], t.rows[id].class_);
    assert t.rows[id := t.rows[id]] == t.rows;
  }

  /** Hence a transition succeeds exactly when the transition table allows it. */
  lemma TransitionExactly(t: Table, env: Env, id: Id, verb: Verb, at: Option<int>)
    requires Sound(t, env.classes) && id < |t.rows|
    ensures Transition(t, env, id, verb, at).Done? <==> Allowed(t.rows[id].status, Target(verb))
  {
    if Allowed(t.rows[id].status, Target(verb)) { TransitionNeverFull(t, env, id, Target(verb)); }
  }

  // ---------- lineage is a forest ----------

  /** Following source links ends, at an enrollment created outright. */
  ghost function Root(rows: seq<Enrollment>, i: Id): Id
    requires Linked(rows) && i < |rows|
    decreases i
  {
    assert LinkedAt(rows, i);
    if rows[i].source.None? then i else Root(rows, rows[i].source.value)
  }

  lemma {:induction false} LineageIsForest(rows: seq<Enrollment>, i: Id)
    requires Linked(rows) && i < |rows|
    ensures var r := Root(rows, i);
            && r <= i && rows[r].source.None? && rows[r].student == rows[i].student
            && (r != i ==> Terminal(rows[r].status))
    decreases i
  {
    assert LinkedAt(rows, i);
    if rows[i].source.Some? { LineageIsForest(rows, rows[i].source.value); }
  }
}

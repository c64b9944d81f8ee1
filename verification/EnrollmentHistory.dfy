/** The history a reader is shown: ORDER BY occurred_at, id. Events of one transaction share
    their time, so their random ids decide. */
module EnrollmentHistory {
  import opened Collections
  import opened Ordering
  import opened Enrollments
  import opened EnrollmentSafety

  predicate Earlier(a: Event, b: Event) {
    a.at < b.at || (a.at == b.at && a.id < b.id)
  }

  function Shown(events: seq<Event>, id: Id): seq<Event> {
    Sort(History(events, id), Earlier)
  }

  // ---------- what one row's history looks like ----------

  /** The two events a creation writes at once: enrolled, and already active or on trial. */
  predicate Twins(h: seq<Event>) {
    && |h| >= 2 && h[0].at == h[1].at && h[0].id != h[1].id
    && h[0].from.None? && h[1].from == Some(h[1].to)
  }

  ghost predicate Timed(h: seq<Event>) {
    && (forall j, k | 0 <= j < k < |h| && 2 <= k :: h[j].at < h[k].at)
    && (|h| >= 2 ==> h[0].at < h[1].at || Twins(h))
  }

  /** What the clock says of the events so far. */
  ghost predicate Clocked(t: Table, now: int) {
    && (forall e | e in t.events :: e.at <= now && e.enrollment < |t.rows|)
    && (forall i | 0 <= i < |t.rows| :: History(t.events, i) != [] && Timed(History(t.events, i)))
  }

  ghost predicate Past(t: Table, now: int) {
    && (forall e | e in t.events :: e.at < now && e.enrollment < |t.rows|)
    && (forall i | 0 <= i < |t.rows| :: History(t.events, i) != [] && Timed(History(t.events, i)))
  }

  lemma HistoryAt(events: seq<Event>, id: Id, now: int)
    requires forall e | e in events :: e.at < now
    ensures forall e | e in History(events, id) :: e.at < now
  {
    FilterMembers(events, Of(id));
  }

  lemma TransitionClocked(t: Table, env: Env, id: Id, verb: Verb, at: Option<int>)
    requires Past(t, env.now)
    ensures Clocked(After(t, Transition(t, env, id, verb, at)), env.now)
  {
    var o := Transition(t, env, id, verb, at);
    if o.Done? {
      var e := o.table.events[|t.events|];
      assert o.table.events == t.events + [e];
      forall i | 0 <= i < |o.table.rows| ensures History(o.table.events, i) != [] && Timed(History(o.table.events, i)) {
        HistorySnoc(t.events, e, i);
        HistoryAt(t.events, i, env.now);
        assert Timed(History(t.events, i));
      }
    }
  }

  /** A new row told by one event, other rows' histories untouched. */
  lemma NewRowClocked(t: Table, t': Table, e: Event, now: int)
    requires Clocked(t, now)
    requires |t'.rows| == |t.rows| + 1 && t'.events == t.events + [e] && e.enrollment == |t.rows| && e.at == now
    ensures Clocked(t', now) && History(t'.events, |t.rows|) == [e]
  {
    NoHistory(t.events, |t.rows|);
    forall i | 0 <= i < |t'.rows| ensures History(t'.events, i) != [] && Timed(History(t'.events, i)) {
      HistorySnoc(t.events, e, i);
      if i < |t.rows| { assert Timed(History(t.events, i)); }
    }
    HistorySnoc(t.events, e, |t.rows|);
  }

  lemma TwinAdded(t: Table, e: Event, e': Event, now: int)
    requires Clocked(t, now) && e.enrollment < |t.rows| && History(t.events, e.enrollment) == [e]
    requires e'.enrollment == e.enrollment && e'.at == e.at == now && e'.id != e.id && e.from.None?
             && e'.from == Some(e'.to)
    ensures Clocked(Table(t.rows, t.events + [e']), now)
  {
    var t' := Table(t.rows, t.events + [e']);
    forall i | 0 <= i < |t'.rows| ensures History(t'.events, i) != [] && Timed(History(t'.events, i)) {
      HistorySnoc(t.events, e', i);
      assert Timed(History(t.events, i));
      if i == e.enrollment { assert History(t'.events, i) == [e, e']; }
    }
  }

  lemma TwinsAdded(t: Table, row: Enrollment, e: Event, e': Event, now: int)
    requires Clocked(t, now) && e.enrollment == e'.enrollment == |t.rows| && e'.at == e.at == now && e'.id != e.id
    requires e.from.None? && e'.from == Some(e'.to)
    ensures Clocked(Table(t.rows + [row], t.events + [e, e']), now)
  {
    var t1 := Table(t.rows + [row], t.events + [e]);
    NewRowClocked(t, t1, e, now);
    TwinAdded(t1, e, e', now);
    assert t.events + [e] + [e'] == t.events + [e, e'];
  }

  lemma CreateClocked(t: Table, env: Env, student: Id, class_: Id, status: Status, at: Option<int>)
    requires Clocked(t, env.now) && Initial(status) && env.ulid(0) != env.ulid(1)
    ensures Clocked(After(t, Create(t, env, student, class_, status, at)), env.now)
  {
    var o := Create(t, env, student, class_, status, at);
    if o.Done? {
      var es, row := CreatedEvents(|t.rows|, status, env), o.table.rows[|t.rows|];
      if status == Pending {
        assert es == [es[0]];
        NewRowClocked(t, o.table, es[0], env.now);
      } else {
        assert es == [es[0], es[1]];
        TwinsAdded(t, row, es[0], es[1], env.now);
      }
    }
  }

  lemma ReenrollClocked(t: Table, env: Env, id: Id, student: Id, class_: Id, status: Status, at: Option<int>)
    requires Clocked(t, env.now) && Initial(status)
    ensures Clocked(After(t, Reenroll(t, env, id, student, class_, status, at)), env.now)
  {
    var o := Reenroll(t, env, id, student, class_, status, at);
    if o.Done? { NewRowClocked(t, o.table, o.table.events[|t.events|], env.now); }
  }

  lemma TransferClocked(t: Table, env: Env, id: Id, destination: Id, at: Option<int>)
    requires Past(t, env.now)
    ensures Clocked(After(t, Transfer(t, env, id, destination, at)), env.now)
  {
    var o := Transfer(t, env, id, destination, at);
    if o.Done? {
      var e1, e2 := o.table.events[|t.events|], o.table.events[|t.events| + 1];
      var t1 := Table(o.table.rows[..|t.rows|], t.events + [e1]);
      forall i | 0 <= i < |t1.rows| ensures History(t1.events, i) != [] && Timed(History(t1.events, i)) {
        HistorySnoc(t.events, e1, i);
        HistoryAt(t.events, i, env.now);
        assert Timed(History(t.events, i));
      }
      assert o.table.events == t1.events + [e2];
      NewRowClocked(t1, o.table, e2, env.now);
    }
  }

  lemma PerformClocked(t: Table, env: Env, c: Command)
    requires Past(t, env.now) && WellFormed(c) && env.ulid(0) != env.ulid(1)
    ensures Clocked(After(t, Perform(t, env, c)), env.now)
  {
    match c
    case CreateCommand(student, class_, status, at) => CreateClocked(t, env, student, class_, status, at);
    case TransitionCommand(id, verb, at) => TransitionClocked(t, env, id, verb, at);
    case TransferCommand(id, class_, at) => TransferClocked(t, env, id, class_, at);
    case ReenrollCommand(id, student, class_, status, at) => ReenrollClocked(t, env, id, student, class_, status, at);
  }

  // ---------- the order shown ----------

  function Swapped(h: seq<Event>): seq<Event>
    requires |h| >= 2
  {
    [h[1], h[0]] + h[2..]
  }

  lemma TimedDecides(h: seq<Event>)
    requires Timed(h)
    ensures Distinct(h) && Decides(h, Earlier)
  {
    forall x, y | x in h && y in h && x != y ensures Earlier(x, y) || Earlier(y, x) {
      var i: nat :| i < |h| && h[i] == x;
      var j: nat :| j < |h| && h[j] == y;
    }
  }

  lemma SwappedMembers(h: seq<Event>)
    requires |h| >= 2
    ensures SameMembers(h, Swapped(h))
  {
    assert h == [h[0], h[1]] + h[2..];
  }

  lemma SwappedIncreasing(h: seq<Event>)
    requires Timed(h) && Twins(h) && h[1].id < h[0].id
    ensures Increasing(Swapped(h), Earlier)
  {
    var s := Swapped(h);
    forall i, j | 0 <= i < j < |s| ensures Earlier(s[i], s[j]) {
      if j >= 2 { assert s[j] == h[j] && s[i].at < h[j].at; }
    }
  }

  /** The one thing the display can get wrong is the order of a creation's two events. */
  lemma ShownOrder(h: seq<Event>)
    requires Timed(h)
    ensures Sort(h, Earlier) == if Twins(h) && h[1].id < h[0].id then Swapped(h) else h
  {
    TimedDecides(h);
    if Twins(h) && h[1].id < h[0].id {
      SwappedIncreasing(h);
      SwappedMembers(h);
      SortUnique(h, Swapped(h), Earlier);
    } else {
      assert Increasing(h, Earlier);
      SortUnique(h, h, Earlier);
    }
  }

  lemma SwappedTells(h: seq<Event>, status: Status)
    requires Timed(h) && Twins(h) && Tells(h, status)
    ensures !Chained(Swapped(h)) && Swapped(h)[|h| - 1].to == status
  {
    var s := Swapped(h);
    assert s[1].from != Some(s[0].to);
    assert h[1].from == Some(h[0].to);
  }

  lemma ShownTells(h: seq<Event>, status: Status)
    requires Timed(h) && Tells(h, status)
    ensures var shown := Sort(h, Earlier);
            && |shown| != 0 && shown[|shown| - 1].to == status && multiset(shown) == multiset(h)
            && (Chained(shown) <==> (Twins(h) ==> h[0].id < h[1].id))
  {
    ShownOrder(h);
    SortMembers(h, Earlier);
    if Twins(h) && h[1].id < h[0].id { SwappedTells(h, status); }
  }

  // ---------- one creation shown out of order ----------

  function Reversing(): Env {
    Env(5, map[1 := true], map[2 := Class(true, None)], (k: nat) => if k == 0 then 1 else 0)
  }

  lemma TwinsShownSwapped(e: Event, e': Event)
    requires e'.enrollment == e.enrollment && e'.at == e.at && e'.id < e.id
    requires e.from.None? && e'.from == Some(e'.to) && e'.to == e.to
    ensures History([e, e'], e.enrollment) == [e, e'] && Tells([e, e'], e.to)
    ensures Shown([e, e'], e.enrollment) == [e', e] && !Chained([e', e])
  {
    FilterAll([e, e'], Of(e.enrollment));
    ShownOrder([e, e']);
    assert Swapped([e, e']) == [e', e];
    SwappedTells([e, e'], e.to);
  }

  lemma ReversingCreates()
    ensures var e := Event(0, Enrolled, None, Active, 5, 1);
            Create(Table([], []), Reversing(), 1, 2, Active, None)
            == Done(Table([Enrollment(1, 2, Active, None, None, None, None)],
                          [e, e.(kind := Activated, from := Some(Active), id := 0)]), 0)
  {
  }

  /** Enrolling one student as ACTIVE, when the second id generated is the smaller: the history is
      shown as activated from ACTIVE before it was enrolled. */
  lemma CreationShownSwapped()
    ensures var o := Create(Table([], []), Reversing(), 1, 2, Active, None);
            && o.Done? && Tells(History(o.table.events, 0), Active)
            && !Chained(Shown(o.table.events, 0)) && Shown(o.table.events, 0)[0].kind == Activated
  {
    ReversingCreates();
    var e := Event(0, Enrolled, None, Active, 5, 1);
    TwinsShownSwapped(e, e.(kind := Activated, from := Some(Active), id := 0));
  }
}

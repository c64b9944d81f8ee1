/** When the pause date tells which enrollments are paused: always, until a paused one is transferred. */
module EnrollmentPauses {
  import opened Collections
  import opened Enrollments
  import opened EnrollmentSafety

  predicate Exact(row: Enrollment) {
    row.pauseStartedAt.Some? <==> row.status == Paused
  }

  ghost predicate AllExact(rows: seq<Enrollment>) {
    forall i | 0 <= i < |rows| :: Exact(rows[i])
  }

  /** An accepted transfer of a paused enrollment. */
  predicate MovesPaused(t: Table, env: Env, c: Command)
    requires WellFormed(c)
  {
    c.TransferCommand? && Perform(t, env, c).Done? && t.rows[c.id].status == Paused
  }

  /** A terminal row with a pause date: such a row never changes again. */
  ghost predicate Stuck(rows: seq<Enrollment>) {
    exists i | 0 <= i < |rows| :: Terminal(rows[i].status) && rows[i].pauseStartedAt.Some?
  }

  lemma StuckNotExact(rows: seq<Enrollment>)
    requires Stuck(rows)
    ensures !AllExact(rows)
  {
    var i :| 0 <= i < |rows| && Terminal(rows[i].status) && rows[i].pauseStartedAt.Some?;
    assert !Exact(rows[i]);
  }

  lemma StuckStays(t: Table, t': Table)
    requires Extends(t, t') && Stuck(t.rows)
    ensures Stuck(t'.rows)
  {
    var i :| 0 <= i < |t.rows| && Terminal(t.rows[i].status) && t.rows[i].pauseStartedAt.Some?;
    assert t'.rows[i] == t.rows[i];
  }

  /** From exact rows a command leaves exact rows if and only if it does not transfer a paused
      enrollment; if it does, the closed row keeps its pause date. */
  lemma PauseExactly(t: Table, env: Env, c: Command)
    requires WellFormed(c) && AllExact(t.rows)
    ensures AllExact(After(t, Perform(t, env, c)).rows) <==> !MovesPaused(t, env, c)
    ensures MovesPaused(t, env, c) ==> Stuck(After(t, Perform(t, env, c)).rows)
  {
    if MovesPaused(t, env, c) {
      var t' := Perform(t, env, c).table;
      assert Exact(t.rows[c.id]);
      assert t'.rows[c.id].status == Withdrawn && t'.rows[c.id].pauseStartedAt.Some?;
      StuckNotExact(t'.rows);
    }
  }

  // ---------- one pause transferred ----------

  function Day(now: nat): Env {
    Env(now, map[1 := true], map[2 := Class(true, None), 3 := Class(true, None)], (k: nat) => 10 * now + k)
  }

  /** One student is enrolled as ACTIVE on day 1, paused on day 2 and transferred on day 3. */
  const Moving: seq<Command> :=
    [CreateCommand(1, 2, Active, Some(1)), TransitionCommand(0, Pause, None), TransferCommand(0, 3, None)]

  function Stage(k: nat): Table
    requires k <= 3
  {
    if k == 0 then Table([], []) else After(Stage(k - 1), Perform(Stage(k - 1), Day(k), Moving[k - 1]))
  }

  lemma StagesAre()
    ensures Stage(1).rows == [Enrollment(1, 2, Active, Some(1), None, None, None)]
    ensures Stage(2).rows == [Enrollment(1, 2, Paused, Some(1), None, Some(2), None)]
  {
    assert Perform(Stage(0), Day(1), Moving[0]).Done?;
    assert Perform(Stage(1), Day(2), Moving[1]).Done?;
  }

  /** All three commands are accepted, and leave the WITHDRAWN row dated and the PAUSED one undated. */
  lemma PauseDateMisplaced()
    ensures MovesPaused(Stage(2), Day(3), Moving[2])
    ensures Stage(3).rows == [Enrollment(1, 2, Withdrawn, Some(1), Some(3), Some(2), None),
                              Enrollment(1, 3, Paused, Some(1), None, None, Some(0))]
    ensures !Exact(Stage(3).rows[0]) && !Exact(Stage(3).rows[1])
  {
    StagesAre();
    assert Perform(Stage(2), Day(3), Moving[2]).Done?;
  }
}

/** The read-only validator predicts what the sequential enrollment writes will do. */
module ImportPredictor {
  import opened Collections
  import opened Enrollments
  import opened ImportValidation
  import EnrollmentSafety

  /** The directory the validator reads is the one the writers check against. */
  ghost predicate Agrees(dir: Directory, env: Env) {
    && Keyful(dir)
    && (forall code | code in dir.students ::
          dir.students[code].id in env.students && env.students[dir.students[code].id] == dir.students[code].active)
    && (forall code | code in dir.classes ::
          dir.classes[code].id in env.classes
          && env.classes[dir.classes[code].id] == Class(dir.classes[code].active, dir.classes[code].capacity))
  }

  // ---------- the sequential writes ----------

  predicate Resolved(row: ValidatedRow) {
    row.student.Some? && row.class_.Some? && Initial(row.status)
  }

  ghost predicate AllResolved(rows: seq<ValidatedRow>) {
    forall row | row in rows :: Resolved(row)
  }

  function EnvAt(env: Env, ids: nat -> nat -> Id, k: nat): Env {
    env.(ulid := ids(k))
  }

  function Write(t: Table, env: Env, row: ValidatedRow): Outcome
    requires Resolved(row)
  {
    Create(t, env, row.student.value, row.class_.value, row.status, row.enrolledAt)
  }

  /** createInTransaction for each of the first k rows, each in the state the one before left. */
  function WriteAll(t: Table, env: Env, ids: nat -> nat -> Id, rows: seq<ValidatedRow>, k: nat): Outcome
    requires k <= |rows| && AllResolved(rows)
  {
    if k == 0 then Done(t, 0)
    else
      match WriteAll(t, env, ids, rows, k - 1)
      case Failed(error) => Failed(error)
      case Done(t', _) => Write(t', EnvAt(env, ids, k - 1), rows[k - 1])
  }

  /** Everything the writers check besides capacity, stated of the store before any write. */
  ghost predicate Clean(rows: seq<ValidatedRow>, t: Table, env: Env) {
    && AllResolved(rows)
    && (forall row | row in rows ::
          && Valid(row)
          && MissingOrDisabled(env, row.student.value, row.class_.value, row.status != Pending).None?
          && !PairTaken(t.rows, row.student.value, row.class_.value))
    && (forall i, j | 0 <= i < j < |rows| :: rows[i].student != rows[j].student || rows[i].class_ != rows[j].class_)
  }

  lemma DemandSnoc(rows: seq<ValidatedRow>, k: nat, class_: Id)
    requires k < |rows|
    ensures Demand(rows[..k + 1], class_) == Demand(rows[..k], class_) + if Asks(rows[k], class_) then 1 else 0
  {
    assert rows[..k + 1][..k] == rows[..k];
  }

  lemma {:induction false} DemandGrows(rows: seq<ValidatedRow>, k: nat, m: nat, class_: Id)
    requires k <= m <= |rows|
    ensures Demand(rows[..k], class_) <= Demand(rows[..m], class_)
  {
    if k < m {
      DemandGrows(rows, k, m - 1, class_);
      DemandSnoc(rows, m - 1, class_);
    }
  }

  /** What the first k writes leave: the old rows, then one enrollment per written row. */
  ghost predicate Written(t: Table, t': Table, rows: seq<ValidatedRow>, k: nat)
    requires k <= |rows| && AllResolved(rows)
  {
    && |t'.rows| == |t.rows| + k && t'.rows[..|t.rows|] == t.rows
    && (forall i | 0 <= i < k ::
          var row, e := rows[i], t'.rows[|t.rows| + i];
          row in rows && e.student == row.student.value && e.class_ == row.class_.value && e.status == row.status)
    && (forall c :: Consumers(t'.rows, c, None) == Consumers(t.rows, c, None) + Demand(rows[..k], c))
  }

  lemma OneWritten(t: Table, t': Table, env: Env, rows: seq<ValidatedRow>, k: nat)
    requires k < |rows| && AllResolved(rows) && Valid(rows[k]) && Written(t, t', rows, k)
    requires rows[k] in rows && Write(t', env, rows[k]).Done?
    ensures Written(t, Write(t', env, rows[k]).table, rows, k + 1)
  {
    var t2 := Write(t', env, rows[k]).table;
    forall c ensures Consumers(t2.rows, c, None) == Consumers(t.rows, c, None) + Demand(rows[..k + 1], c) {
      EnrollmentSafety.ConsumersSnoc(t'.rows, t2.rows[|t'.rows|], c);
      DemandSnoc(rows, k, c);
    }
  }

  lemma {:induction false} WritesLeave(t: Table, env: Env, ids: nat -> nat -> Id, rows: seq<ValidatedRow>, k: nat)
    requires k <= |rows| && Clean(rows, t, env) && WriteAll(t, env, ids, rows, k).Done?
    ensures Written(t, WriteAll(t, env, ids, rows, k).table, rows, k)
  {
    if k == 0 {
      assert rows[..0] == [];
    } else {
      WritesLeave(t, env, ids, rows, k - 1);
      assert rows[k - 1] in rows;
      OneWritten(t, WriteAll(t, env, ids, rows, k - 1).table, EnvAt(env, ids, k - 1), rows, k - 1);
    }
  }

  /** Earlier rows of the file never take the pair of a later one. */
  lemma PairStillFree(t: Table, t': Table, env: Env, rows: seq<ValidatedRow>, k: nat)
    requires k < |rows| && Clean(rows, t, env) && Written(t, t', rows, k) && rows[k] in rows
    ensures !PairTaken(t'.rows, rows[k].student.value, rows[k].class_.value)
  {
    var student, class_ := rows[k].student.value, rows[k].class_.value;
    forall i | 0 <= i < |t'.rows| ensures !(t'.rows[i].student == student && Takes(t'.rows[i], class_)) {
      if i < |t.rows| {
        assert t'.rows[i] == t'.rows[..|t.rows|][i] == t.rows[i];
      } else {
        var j := i - |t.rows|;
        assert t'.rows[|t.rows| + j].student == rows[j].student.value;
      }
    }
  }

  /** Of clean rows, a write can only fail for want of a seat. */
  lemma OnlyCapacityFails(t: Table, env: Env, ids: nat -> nat -> Id, rows: seq<ValidatedRow>, k: nat)
    requires k < |rows| && Clean(rows, t, env) && WriteAll(t, env, ids, rows, k).Done? && rows[k] in rows
    ensures var t' := WriteAll(t, env, ids, rows, k).table;
            WriteAll(t, env, ids, rows, k + 1).Done?
            <==> CapacityError(t', env, rows[k].class_.value, rows[k].status, None).None?
  {
    var t' := WriteAll(t, env, ids, rows, k).table;
    WritesLeave(t, env, ids, rows, k);
    PairStillFree(t, t', env, rows, k);
  }

  /** The batch asks more of a class than its capacity leaves. */
  predicate Over(t: Table, env: Env, rows: seq<ValidatedRow>, class_: Id) {
    && Demand(rows, class_) > 0 && class_ in env.classes && env.classes[class_].capacity.Some?
    && Consumers(t.rows, class_, None) + Demand(rows, class_) > env.classes[class_].capacity.value
  }

  ghost predicate NoneOver(t: Table, env: Env, rows: seq<ValidatedRow>) {
    forall c :: !Over(t, env, rows, c)
  }

  lemma NextWriteFits(t: Table, env: Env, ids: nat -> nat -> Id, rows: seq<ValidatedRow>, k: nat)
    requires k < |rows| && Clean(rows, t, env) && WriteAll(t, env, ids, rows, k).Done?
    requires NoneOver(t, env, rows)
    ensures WriteAll(t, env, ids, rows, k + 1).Done?
  {
    assert rows[k] in rows;
    var c := rows[k].class_.value;
    WritesLeave(t, env, ids, rows, k);
    OnlyCapacityFails(t, env, ids, rows, k);
    DemandSnoc(rows, k, c);
    DemandGrows(rows, k + 1, |rows|, c);
    assert rows[..|rows|] == rows;
    assert !Over(t, env, rows, c);
  }

  lemma {:induction false} AllFit(t: Table, env: Env, ids: nat -> nat -> Id, rows: seq<ValidatedRow>, k: nat)
    requires k <= |rows| && Clean(rows, t, env) && NoneOver(t, env, rows)
    ensures WriteAll(t, env, ids, rows, k).Done?
  {
    if k != 0 {
      AllFit(t, env, ids, rows, k - 1);
      NextWriteFits(t, env, ids, rows, k - 1);
    }
  }

  lemma SeatTaken(t: Table, env: Env, ids: nat -> nat -> Id, rows: seq<ValidatedRow>, k: nat, c: Id)
    requires k < |rows| && Clean(rows, t, env) && WriteAll(t, env, ids, rows, k + 1).Done?
    requires Asks(rows[k], c) && c in env.classes && env.classes[c].capacity.Some?
    ensures Consumers(t.rows, c, None) + Demand(rows[..k], c) < env.classes[c].capacity.value
  {
    assert rows[k] in rows;
    WritesLeave(t, env, ids, rows, k);
    OnlyCapacityFails(t, env, ids, rows, k);
  }

  /** As long as all writes pass, no class that got a seat is over its capacity. */
  lemma {:induction false} SeatsKept(t: Table, env: Env, ids: nat -> nat -> Id, rows: seq<ValidatedRow>, k: nat, c: Id)
    requires k <= |rows| && Clean(rows, t, env) && WriteAll(t, env, ids, rows, k).Done?
    requires Demand(rows[..k], c) > 0 && c in env.classes && env.classes[c].capacity.Some?
    ensures Consumers(t.rows, c, None) + Demand(rows[..k], c) <= env.classes[c].capacity.value
  {
    if k != 0 {
      assert rows[k - 1] in rows;
      DemandSnoc(rows, k - 1, c);
      if Asks(rows[k - 1], c) {
        SeatTaken(t, env, ids, rows, k - 1, c);
      } else {
        SeatsKept(t, env, ids, rows, k - 1, c);
      }
    }
  }

  /** Writing clean rows in order succeeds if and only if no class is asked for too many seats. */
  lemma WritesExactly(t: Table, env: Env, ids: nat -> nat -> Id, rows: seq<ValidatedRow>)
    requires Clean(rows, t, env)
    ensures WriteAll(t, env, ids, rows, |rows|).Done? <==> NoneOver(t, env, rows)
  {
    if WriteAll(t, env, ids, rows, |rows|).Done? {
      forall c ensures !Over(t, env, rows, c) {
        assert rows[..|rows|] == rows;
        if Over(t, env, rows, c) { SeatsKept(t, env, ids, rows, |rows|, c); }
      }
    } else {
      if NoneOver(t, env, rows) { AllFit(t, env, ids, rows, |rows|); }
    }
  }

  // ---------- valid rows are clean ----------

  lemma {:induction false} JudgedAt(s: Snapshot, rows: seq<StagedRow>, reverse: map<Field, string>,
                                    scalars: StagedRow -> Scalars,
                                    k: nat, i: nat)
    requires i < k <= |rows|
    ensures RowsJudged(s, rows, reverse, scalars, k)[i]
            == Judged(s, Keys(rows, reverse, i), rows[i].number, Read(rows[i], reverse), scalars(rows[i]))
  {
    if i < k - 1 { JudgedAt(s, rows, reverse, scalars, k - 1, i); }
  }

  ghost predicate Numbered(rows: seq<StagedRow>) {
    forall i, j | 0 <= i < j < |rows| :: rows[i].number != rows[j].number
  }

  /** An identity met before a row is kept by an earlier row. */
  lemma {:induction false} KeysMet(rows: seq<StagedRow>, reverse: map<Field, string>, k: nat, i: nat)
    requires i < k <= |rows| && Identity(Read(rows[i], reverse)).Some?
    ensures Identity(Read(rows[i], reverse)).value in Keys(rows, reverse, k)
    ensures exists j | 0 <= j < k :: Keys(rows, reverse, k)[Identity(Read(rows[i], reverse)).value] == rows[j].number
  {
    var key := Identity(Read(rows[i], reverse)).value;
    var r := Read(rows[k - 1], reverse);
    var before := Keys(rows, reverse, k - 1);
    if i < k - 1 { KeysMet(rows, reverse, k - 1, i); }
    if Identity(r) == Some(key) && !Repeats(before, r, rows[k - 1].number) {
      assert Keys(rows, reverse, k)[key] == rows[k - 1].number;
    } else {
      assert Keys(rows, reverse, k) == Keyed(before, rows[k - 1].number, r);
      if i == k - 1 {
        KeysFrom(rows, reverse, k - 1, key);
      }
    }
  }

  lemma {:induction false} KeysFrom(rows: seq<StagedRow>, reverse: map<Field, string>, k: nat, key: string)
    requires k <= |rows| && key in Keys(rows, reverse, k)
    ensures exists j | 0 <= j < k :: Keys(rows, reverse, k)[key] == rows[j].number
  {
    var r := Read(rows[k - 1], reverse);
    if Identity(r) == Some(key) && !Repeats(Keys(rows, reverse, k - 1), r, rows[k - 1].number) {
      assert Keys(rows, reverse, k)[key] == rows[k - 1].number;
    } else {
      KeysFrom(rows, reverse, k - 1, key);
    }
  }

  /** Of two rows with the same identity the later is not valid. */
  lemma LaterRepeats(rows: seq<StagedRow>, reverse: map<Field, string>, i: nat, j: nat)
    requires Numbered(rows) && i < j < |rows| && Identity(Read(rows[i], reverse)).Some?
    requires Identity(Read(rows[i], reverse)) == Identity(Read(rows[j], reverse))
    ensures Repeats(Keys(rows, reverse, j), Read(rows[j], reverse), rows[j].number)
  {
    KeysMet(rows, reverse, j, i);
    var key := Identity(Read(rows[i], reverse)).value;
    var m :| 0 <= m < j && Keys(rows, reverse, j)[key] == rows[m].number;
  }

  lemma ReadInitial(row: StagedRow, reverse: map<Field, string>)
    ensures Initial(Read(row, reverse).status)
  {}

  /** A valid row found its student and class by code, both as the writers know them, and no
      operational enrollment of the pair. */
  lemma ValidRowFound(dir: Directory, t: Table, env: Env, rows: seq<StagedRow>, reverse: map<Field, string>,
                      keys: map<string, nat>, number: nat, row: StagedRow, scalars: Scalars)
    requires Agrees(dir, env) && row in rows
    requires Valid(Judged(Loaded(dir, t, rows, reverse), keys, number, Read(row, reverse), scalars))
    ensures var v, r := Judged(Loaded(dir, t, rows, reverse), keys, number, Read(row, reverse), scalars),
            Read(row, reverse);
            && Resolved(v) && Identity(r).Some? && !Repeats(keys, r, number)
            && r.student.value in dir.students && v.student.value == dir.students[r.student.value].id
            && r.class_.value in dir.classes && v.class_.value == dir.classes[r.class_.value].id
            && MissingOrDisabled(env, v.student.value, v.class_.value, v.status != Pending).None?
            && !PairTaken(t.rows, v.student.value, v.class_.value)
  {
    var s, r := Loaded(dir, t, rows, reverse), Read(row, reverse);
    ReadInitial(row, reverse);
    var student, class_ := StudentFor(s, r), ClassFor(s, r);
    assert student.Some? && class_.Some?;
    assert (student.value.id, class_.value.id) !in s.pairs;
    assert r.student.value in s.students && r.class_.value in s.classes;
    forall i | 0 <= i < |t.rows|
      ensures t.rows[i].student == student.value.id && Takes(t.rows[i], class_.value.id)
              ==> (t.rows[i].student, t.rows[i].class_) in s.pairs
    {}
  }

  lemma TwoRowsDiffer(dir: Directory, t: Table, env: Env, rows: seq<StagedRow>, reverse: map<Field, string>,
                      scalars: StagedRow -> Scalars, i: nat, j: nat)
    requires Agrees(dir, env) && Numbered(rows) && i < j < |rows|
    requires var judged := RowsJudged(Loaded(dir, t, rows, reverse), rows, reverse, scalars, |rows|);
             Valid(judged[i]) && Valid(judged[j])
    ensures var judged := RowsJudged(Loaded(dir, t, rows, reverse), rows, reverse, scalars, |rows|);
            judged[i].student != judged[j].student || judged[i].class_ != judged[j].class_
  {
    var s := Loaded(dir, t, rows, reverse);
    JudgedAt(s, rows, reverse, scalars, |rows|, i);
    JudgedAt(s, rows, reverse, scalars, |rows|, j);
    assert rows[i] in rows && rows[j] in rows;
    ValidRowFound(dir, t, env, rows, reverse, Keys(rows, reverse, i), rows[i].number, rows[i], scalars(rows[i]));
    ValidRowFound(dir, t, env, rows, reverse, Keys(rows, reverse, j), rows[j].number, rows[j], scalars(rows[j]));
    if Identity(Read(rows[i], reverse)) == Identity(Read(rows[j], reverse)) { LaterRepeats(rows, reverse, i, j); }
  }

  /** The valid rows of a file, in order. */
  function ValidOnes(judged: seq<ValidatedRow>): seq<ValidatedRow> {
    Filter(judged, (row: ValidatedRow) => Valid(row))
  }

  ghost predicate RowsDiffer(rows: seq<ValidatedRow>) {
    forall i, j | 0 <= i < j < |rows| && Valid(rows[i]) && Valid(rows[j]) ::
      rows[i].student != rows[j].student || rows[i].class_ != rows[j].class_
  }

  lemma {:induction false} ValidOnesDiffer(judged: seq<ValidatedRow>)
    requires RowsDiffer(judged)
    ensures RowsDiffer(ValidOnes(judged))
  {
    if |judged| != 0 {
      var front, last := judged[..|judged| - 1], judged[|judged| - 1];
      ValidOnesDiffer(front);
      FilterMembers(front, (row: ValidatedRow) => Valid(row));
      var good := ValidOnes(front);
      forall i | 0 <= i < |good| && Valid(last)
        ensures good[i].student != last.student || good[i].class_ != last.class_
      {
        assert good[i] in front;
      }
    }
  }

  lemma JudgedClean(dir: Directory, t: Table, env: Env, rows: seq<StagedRow>, reverse: map<Field, string>,
                    scalars: StagedRow -> Scalars)
    requires Agrees(dir, env) && Numbered(rows)
    ensures Clean(ValidOnes(RowsJudged(Loaded(dir, t, rows, reverse), rows, reverse, scalars, |rows|)), t, env)
  {
    var s := Loaded(dir, t, rows, reverse);
    var judged := RowsJudged(s, rows, reverse, scalars, |rows|);
    FilterMembers(judged, (row: ValidatedRow) => Valid(row));
    forall row | row in ValidOnes(judged)
      ensures Resolved(row) && Valid(row) && !PairTaken(t.rows, row.student.value, row.class_.value)
      ensures MissingOrDisabled(env, row.student.value, row.class_.value, row.status != Pending).None?
    {
      var i :| 0 <= i < |judged| && judged[i] == row;
      JudgedAt(s, rows, reverse, scalars, |rows|, i);
      assert rows[i] in rows;
      ValidRowFound(dir, t, env, rows, reverse, Keys(rows, reverse, i), rows[i].number, rows[i], scalars(rows[i]));
    }
    forall i, j | 0 <= i < j < |judged| && Valid(judged[i]) && Valid(judged[j])
      ensures judged[i].student != judged[j].student || judged[i].class_ != judged[j].class_
    {
      TwoRowsDiffer(dir, t, env, rows, reverse, scalars, i, j);
    }
    ValidOnesDiffer(judged);
    var good := ValidOnes(judged);
    forall i, j | 0 <= i < j < |good| ensures good[i].student != good[j].student || good[i].class_ != good[j].class_ {
      assert good[i] in good && good[j] in good;
    }
  }

  // ---------- the capacity verdict ----------

  lemma {:induction false} DemandOfValid(judged: seq<ValidatedRow>, c: Id)
    ensures Demand(ValidOnes(judged), c) == Demand(judged, c)
  {
    if |judged| != 0 {
      var front, last := judged[..|judged| - 1], judged[|judged| - 1];
      DemandOfValid(front, c);
      if Valid(last) { assert (ValidOnes(front) + [last])[..|ValidOnes(front)|] == ValidOnes(front); }
    }
  }

  lemma {:induction false} DemandNamed(judged: seq<ValidatedRow>, c: Id)
    requires Demand(judged, c) > 0
    ensures exists row | row in judged :: Asks(row, c)
  {
    if !Asks(judged[|judged| - 1], c) {
      DemandNamed(judged[..|judged| - 1], c);
      var row :| row in judged[..|judged| - 1] && Asks(row, c);
      assert row in judged;
    } else {
      assert judged[|judged| - 1] in judged;
    }
  }

  /** What was loaded for a class is its count in the store. */
  lemma ExistingIsCount(dir: Directory, t: Table, rows: seq<StagedRow>, reverse: map<Field, string>, code: string)
    requires code in Loaded(dir, t, rows, reverse).classes
    ensures var s := Loaded(dir, t, rows, reverse);
            Existing(s, s.classes[code].id) == Consumers(t.rows, s.classes[code].id, None)
  {
    var s := Loaded(dir, t, rows, reverse);
    assert s.classes[code].id in ClassIds(s.classes);
  }

  /** A class some valid row asks for was loaded, under one code, as the writers know it. */
  lemma AskedIsLoaded(dir: Directory, t: Table, env: Env, rows: seq<StagedRow>, reverse: map<Field, string>,
                      scalars: StagedRow -> Scalars, c: Id) returns (code: string)
    requires Agrees(dir, env)
    requires Demand(RowsJudged(Loaded(dir, t, rows, reverse), rows, reverse, scalars, |rows|), c) > 0
    ensures var s := Loaded(dir, t, rows, reverse);
            && code in s.classes && code in dir.classes && s.classes[code] == dir.classes[code]
               && s.classes[code].id == c
            && c in env.classes && env.classes[c].capacity == s.classes[code].capacity
  {
    var s := Loaded(dir, t, rows, reverse);
    var judged := RowsJudged(s, rows, reverse, scalars, |rows|);
    DemandNamed(judged, c);
    var row :| row in judged && Asks(row, c);
    var i :| 0 <= i < |judged| && judged[i] == row;
    JudgedAt(s, rows, reverse, scalars, |rows|, i);
    assert rows[i] in rows;
    ValidRowFound(dir, t, env, rows, reverse, Keys(rows, reverse, i), rows[i].number, rows[i], scalars(rows[i]));
    code := Read(rows[i], reverse).class_.value;
  }

  /** The validator flags a class exactly when the batch asks for more than the store leaves. */
  lemma FlaggedIsOver(dir: Directory, t: Table, env: Env, rows: seq<StagedRow>, reverse: map<Field, string>,
                      scalars: StagedRow -> Scalars, c: Id)
    requires Agrees(dir, env)
    ensures var s := Loaded(dir, t, rows, reverse);
            var judged := RowsJudged(s, rows, reverse, scalars, |rows|);
            Flagged(s, judged, c) <==> Over(t, env, ValidOnes(judged), c)
  {
    var s := Loaded(dir, t, rows, reverse);
    var judged := RowsJudged(s, rows, reverse, scalars, |rows|);
    DemandOfValid(judged, c);
    if Demand(judged, c) > 0 {
      var code := AskedIsLoaded(dir, t, env, rows, reverse, scalars, c);
      ExistingIsCount(dir, t, rows, reverse, code);
      forall other | other in s.classes && s.classes[other].id == c ensures other == code {
        assert other in dir.classes && dir.classes[other] == s.classes[other];
      }
    }
  }

  /** The grouped capacity verdict is exact: writing the otherwise valid rows in order fails if and
      only if some class is flagged. */
  lemma PredictorExact(dir: Directory, t: Table, env: Env, ids: nat -> nat -> Id, mapping: Mapping,
                       rows: seq<StagedRow>,
                       scalars: StagedRow -> Scalars)
    requires Agrees(dir, env) && Numbered(rows)
    ensures var s := Loaded(dir, t, rows, Reverse(mapping));
            var judged := RowsJudged(s, rows, Reverse(mapping), scalars, |rows|);
            var good := ValidOnes(judged);
            && Clean(good, t, env)
            && (WriteAll(t, env, ids, good, |good|).Failed? <==> exists c :: Flagged(s, judged, c))
  {
    var reverse := Reverse(mapping);
    var s := Loaded(dir, t, rows, reverse);
    var judged := RowsJudged(s, rows, reverse, scalars, |rows|);
    JudgedClean(dir, t, env, rows, reverse, scalars);
    WritesExactly(t, env, ids, ValidOnes(judged));
    forall c ensures Flagged(s, judged, c) <==> Over(t, env, ValidOnes(judged), c) {
      FlaggedIsOver(dir, t, env, rows, reverse, scalars, c);
    }
  }

  /** The write at k is the first to fail. */
  predicate FailsAt(t: Table, env: Env, ids: nat -> nat -> Id, rows: seq<ValidatedRow>, k: nat)
    requires AllResolved(rows) && k < |rows|
  {
    WriteAll(t, env, ids, rows, k).Done? && WriteAll(t, env, ids, rows, k + 1).Failed?
  }

  /** And where it fails, it fails for want of a seat, nothing else. */
  lemma FailsForSeat(t: Table, env: Env, ids: nat -> nat -> Id, rows: seq<ValidatedRow>, k: nat)
    requires Clean(rows, t, env) && k < |rows| && FailsAt(t, env, ids, rows, k)
    ensures rows[k] in rows
    ensures CapacityError(WriteAll(t, env, ids, rows, k).table, env, rows[k].class_.value, rows[k].status, None)
            == Some(Conflict)
  {
    assert rows[k] in rows;
    OnlyCapacityFails(t, env, ids, rows, k);
  }

  lemma AllValidMeansUnflagged(s: Snapshot, judged: seq<ValidatedRow>)
    requires forall row | row in Map(judged, WithConflict(s, judged)) :: Valid(row)
    ensures ValidOnes(judged) == judged && Map(judged, WithConflict(s, judged)) == judged
    ensures forall c :: !Flagged(s, judged, c)
  {
    forall i | 0 <= i < |judged| ensures Valid(judged[i]) && !Conflicts(s, judged, judged[i]) {
      assert Map(judged, WithConflict(s, judged))[i] in Map(judged, WithConflict(s, judged));
    }
    FilterAll(judged, (row: ValidatedRow) => Valid(row));
    forall c ensures !Flagged(s, judged, c) {
      if Demand(judged, c) > 0 { DemandNamed(judged, c); }
    }
  }

  /** Soundness: if validation marks every row VALID against a store, writing all rows in order
      from that store succeeds. */
  lemma PredictorSound(dir: Directory, t: Table, env: Env, ids: nat -> nat -> Id, mapping: Mapping,
                       rows: seq<StagedRow>,
                       scalars: StagedRow -> Scalars)
    requires Agrees(dir, env) && Numbered(rows)
    requires forall row | row in Validated(dir, t, mapping, rows, scalars) :: Valid(row)
    ensures var validated := Validated(dir, t, mapping, rows, scalars);
            AllResolved(validated) && WriteAll(t, env, ids, validated, |rows|).Done?
  {
    var s := Loaded(dir, t, rows, Reverse(mapping));
    AllValidMeansUnflagged(s, RowsJudged(s, rows, Reverse(mapping), scalars, |rows|));
    PredictorExact(dir, t, env, ids, mapping, rows, scalars);
  }
}

/** The enrollment import as an instance of the batch machine: once revalidation passes, its
    confirmation is never rolled back. */
module ImportEnrollments {
  import opened Collections
  import opened JsonbOrder
  import opened Ordering
  import Enrollments
  import opened ImportValidation
  import opened ImportPredictor
  import opened ImportDecisions
  import opened ImportBatches
  import opened EnrollmentDecisions

  /** The tables an enrollment import reads and writes, and the ids still to be generated. */
  datatype Store = Store(dir: Directory, table: Enrollments.Table, env: Enrollments.Env, ids: nat -> nat -> Id,
                         used: nat)

  function Staged(cells: seq<map<string, string>>): seq<StagedRow> {
    seq(|cells|, i requires 0 <= i < |cells| => StagedRow(i + 1, cells[i]))
  }

  function Check(scalars: StagedRow -> Scalars)
    : (Store, ColumnMap<Field>, seq<map<string, string>>) -> seq<Verdict<ValidatedRow>>
  {
    (s: Store, mapping: ColumnMap<Field>, cells: seq<map<string, string>>) =>
      Map(Validated(s.dir, s.table, mapping, Staged(cells), scalars), (v: ValidatedRow) => Verdict(v.errors == [], v))
  }

  function WriteRow(s: Store, row: ValidatedRow): Wrote<Store> {
    if !Resolved(row) then Refused
    else
      match Write(s.table, EnvAt(s.env, s.ids, s.used), row)
      case Failed(_) => Refused
      case Done(table, id) => Wrote(s.(table := table, used := s.used + 1), id)
  }

  function Import(scalars: StagedRow -> Scalars): Importer<Store, Field, ValidatedRow> {
    Importer({StudentCode, ClassCode, StatusField, EnrolledAt, ExpectedEndDate, Notes}, {StudentCode, ClassCode},
             Check(scalars), WriteRow)
  }

  lemma ImportAnswers(scalars: StagedRow -> Scalars)
    ensures Answers(Import(scalars))
  {}

  /** Every field may be mapped, and a student code and a class code must be. */
  lemma FieldsExactly(scalars: StagedRow -> Scalars, mapping: ColumnMap<Field>)
    ensures forall field: Field :: field in Import(scalars).known
    ensures !MissingRequired(Import(scalars), mapping)
            <==> && (exists i | 0 <= i < |mapping| :: mapping[i].1 == Some(StudentCode))
                 && (exists i | 0 <= i < |mapping| :: mapping[i].1 == Some(ClassCode))
  {
    forall field: Field ensures field in Import(scalars).known {
      match field {
        case StudentCode =>
        case ClassCode =>
        case StatusField =>
        case EnrolledAt =>
        case ExpectedEndDate =>
        case Notes =>
      }
    }
    assert Maps(mapping, StudentCode) <==> exists i | 0 <= i < |mapping| :: mapping[i].1 == Some(StudentCode);
    assert Maps(mapping, ClassCode) <==> exists i | 0 <= i < |mapping| :: mapping[i].1 == Some(ClassCode);
    assert StudentCode in Import(scalars).required && ClassCode in Import(scalars).required;
  }

  function Shifted(s: Store): nat -> nat -> Id {
    (k: nat) => s.ids(s.used + k)
  }

  /** The k-th write of the loop is the k-th creation. */
  lemma OneRowWritten(s: Store, t: Enrollments.Table, k: nat, row: ValidatedRow)
    requires Resolved(row)
    ensures var w, o := WriteRow(s.(table := t, used := s.used + k), row), Write(t, EnvAt(s.env, Shifted(s), k), row);
            && (w.Wrote? <==> o.Done?)
            && (w.Wrote? ==> w.store == s.(table := o.table, used := s.used + (k + 1)))
  {
    assert EnvAt(s.env, Shifted(s), k) == EnvAt(s.env, s.ids, s.used + k);
  }

  ghost predicate ItemsAre(verdicts: seq<Verdict<ValidatedRow>>, rows: seq<ValidatedRow>) {
    |verdicts| == |rows| && forall i | 0 <= i < |rows| :: verdicts[i].item == rows[i]
  }

  /** The loop and the creations have gone equally far. */
  ghost predicate InStep(s: Store, w: Writes<Store>, all: Enrollments.Outcome, k: nat) {
    && (w.AllWritten? <==> all.Done?)
    && (w.AllWritten? ==> w.store == s.(table := all.table, used := s.used + k))
  }

  lemma LoopNext(s: Store, scalars: StagedRow -> Scalars,
                 verdicts: seq<Verdict<ValidatedRow>>, rows: seq<ValidatedRow>, k: nat)
    requires ItemsAre(verdicts, rows) && k < |rows| && AllResolved(rows)
    requires InStep(s, WriteRows(Import(scalars), s, verdicts, k),
                    WriteAll(s.table, s.env, Shifted(s), rows, k), k)
    ensures InStep(s, WriteRows(Import(scalars), s, verdicts, k + 1),
                   WriteAll(s.table, s.env, Shifted(s), rows, k + 1), k + 1)
  {
    assert rows[k] in rows;
    var w, all := WriteRows(Import(scalars), s, verdicts, k), WriteAll(s.table, s.env, Shifted(s), rows, k);
    if all.Done? {
      OneRowWritten(s, all.table, k, rows[k]);
      assert Import(scalars).write(w.store, verdicts[k].item)
             == WriteRow(s.(table := all.table, used := s.used + k), rows[k]);
    }
  }

  /** The batch's write loop is the sequence of creations the predictor speaks of. */
  lemma {:induction false} LoopIsWriteAll(s: Store, scalars: StagedRow -> Scalars,
                                          verdicts: seq<Verdict<ValidatedRow>>, rows: seq<ValidatedRow>, k: nat)
    requires ItemsAre(verdicts, rows) && k <= |rows| && AllResolved(rows)
    ensures InStep(s, WriteRows(Import(scalars), s, verdicts, k),
                   WriteAll(s.table, s.env, Shifted(s), rows, k), k)
  {
    if k != 0 {
      LoopIsWriteAll(s, scalars, verdicts, rows, k - 1);
      LoopNext(s, scalars, verdicts, rows, k - 1);
    }
  }

  lemma {:induction false} RowsAdded(t: Enrollments.Table, env: Enrollments.Env, ids: nat -> nat -> Id,
                                     rows: seq<ValidatedRow>, k: nat)
    requires k <= |rows| && AllResolved(rows) && WriteAll(t, env, ids, rows, k).Done?
    ensures |WriteAll(t, env, ids, rows, k).table.rows| == |t.rows| + k
  {
    if k != 0 {
      assert rows[k - 1] in rows;
      RowsAdded(t, env, ids, rows, k - 1);
    }
  }

  /** If every row of the batch is judged valid, the whole write loop succeeds. */
  lemma ValidBatchWrites(scalars: StagedRow -> Scalars, s: Store,
                         mapping: ColumnMap<Field>, cells: seq<map<string, string>>)
    requires Agrees(s.dir, s.env)
    requires forall v | v in Check(scalars)(s, mapping, cells) :: v.ok
    ensures var verdicts := Check(scalars)(s, mapping, cells);
            var w := WriteRows(Import(scalars), s, verdicts, |verdicts|);
            w.AllWritten? && |w.store.table.rows| == |s.table.rows| + |verdicts|
  {
    var rows := Staged(cells);
    var validated := Validated(s.dir, s.table, mapping, rows, scalars);
    var verdicts := Check(scalars)(s, mapping, cells);
    forall row | row in validated ensures Valid(row) {
      var i :| 0 <= i < |validated| && validated[i] == row;
      assert verdicts[i] in verdicts;
    }
    PredictorSound(s.dir, s.table, s.env, Shifted(s), mapping, rows, scalars);
    LoopIsWriteAll(s, scalars, verdicts, validated, |validated|);
    RowsAdded(s.table, s.env, Shifted(s), validated, |validated|);
  }

  /** For ENROLLMENTS, if revalidation at confirmation finds every row valid, the writes that
      follow in the same transaction all succeed: the savepoint is never rolled back to. */
  lemma ConfirmNeverRollsBack(scalars: StagedRow -> Scalars, x: System<Store, Field>)
    requires Agrees(x.store.dir, x.store.env)
    requires x.batch.status == ValidatedBatch && x.batch.invalid == 0
             && !MissingRequired(Import(scalars), x.batch.mapping)
    ensures Answers(Import(scalars))
    ensures var verdicts, x' := Check(scalars)(x.store, x.batch.mapping, Cells(x.batch.rows)),
            Confirm(Import(scalars), x).0;
            && (x'.batch.status == CompletedBatch <==> forall v | v in verdicts :: v.ok)
            && (x'.batch.status == CompletedBatch ==> |x'.store.table.rows| == |x.store.table.rows| + |x.batch.rows|)
  {
    ImportAnswers(scalars);
    var verdicts := Check(scalars)(x.store, x.batch.mapping, Cells(x.batch.rows));
    if forall v | v in verdicts :: v.ok {
      ValidBatchWrites(scalars, x.store, x.batch.mapping, Cells(x.batch.rows));
    } else {
      var v :| v in verdicts && !v.ok;
      assert FirstInvalid(verdicts).Some?;
    }
  }

  // ---------- what a confirmation leaves ----------

  /** The enrollment written for a row. */
  function EnrollmentOf(row: ValidatedRow): Enrollments.Enrollment
    requires Resolved(row)
  {
    Enrollments.Enrollment(row.student.value, row.class_.value, row.status,
                           if row.status == Enrollments.Active then row.enrolledAt else None, None, None, None)
  }

  lemma RowLeaves(s: Store, row: ValidatedRow)
    requires WriteRow(s, row).Wrote?
    ensures Resolved(row) && WriteRow(s, row).target == |s.table.rows|
    ensures WriteRow(s, row).store.table.rows == s.table.rows + [EnrollmentOf(row)]
  {
    CreatedExactly(s.table, EnvAt(s.env, s.ids, s.used), row.student.value, row.class_.value, row.status,
                   row.enrolledAt);
  }

  /** The loop has added one enrollment per row, in order, each the target of its row. */
  ghost predicate Left(s: Store, w: Writes<Store>, rows: seq<ValidatedRow>, k: nat)
    requires k <= |rows| && AllResolved(rows)
  {
    && w.AllWritten? && |w.targets| == k && |w.store.table.rows| == |s.table.rows| + k
    && s.table.rows <= w.store.table.rows
    && (forall i | 0 <= i < k ::
          w.targets[i] == |s.table.rows| + i && rows[i] in rows
          && w.store.table.rows[w.targets[i]] == EnrollmentOf(rows[i]))
  }

  lemma {:induction false} LoopLeaves(s: Store, scalars: StagedRow -> Scalars, verdicts: seq<Verdict<ValidatedRow>>,
                                      rows: seq<ValidatedRow>, k: nat)
    requires ItemsAre(verdicts, rows) && k <= |rows| && AllResolved(rows)
    requires WriteRows(Import(scalars), s, verdicts, k).AllWritten?
    ensures Left(s, WriteRows(Import(scalars), s, verdicts, k), rows, k)
  {
    if k != 0 {
      LoopLeaves(s, scalars, verdicts, rows, k - 1);
      LeftNext(s, scalars, WriteRows(Import(scalars), s, verdicts, k - 1), verdicts, rows, k);
    }
  }

  lemma LeftNext(s: Store, scalars: StagedRow -> Scalars, w: Writes<Store>, verdicts: seq<Verdict<ValidatedRow>>,
                 rows: seq<ValidatedRow>, k: nat)
    requires ItemsAre(verdicts, rows) && 0 < k <= |rows| && AllResolved(rows) && Left(s, w, rows, k - 1)
    requires w == WriteRows(Import(scalars), s, verdicts, k - 1)
    requires WriteRows(Import(scalars), s, verdicts, k).AllWritten?
    ensures Left(s, WriteRows(Import(scalars), s, verdicts, k), rows, k)
  {
    assert Import(scalars).write(w.store, verdicts[k - 1].item) == WriteRow(w.store, rows[k - 1]);
    RowLeaves(w.store, rows[k - 1]);
    assert rows[k - 1] in rows;
  }

  /** The i-th row is marked as imported, and its target is a new enrollment of the student and class its
      codes name, with the status its status cell spells. */
  ghost predicate RowImported(dir: Directory, reverse: map<Field, string>, scalars: StagedRow -> Scalars,
                              before: Enrollments.Table, after: Enrollments.Table, staged: StagedRow, row: ImportRow)
  {
    && row.status == ImportedRow && row.cells == staged.cells
    && row.target.Some? && |before.rows| <= row.target.value < |after.rows|
    && Code(staged, reverse, StudentCode).Some? && Code(staged, reverse, StudentCode).value in dir.students
    && Code(staged, reverse, ClassCode).Some? && Code(staged, reverse, ClassCode).value in dir.classes
    && var e := after.rows[row.target.value];
       && e.student == dir.students[Code(staged, reverse, StudentCode).value].id
       && e.class_ == dir.classes[Code(staged, reverse, ClassCode).value].id
       && (match Text(staged, reverse, StatusField)
           case None => e.status == Enrollments.Pending
           case Some(text) =>
             || (text == "PENDING" && e.status == Enrollments.Pending)
             || (text == "TRIAL" && e.status == Enrollments.Trial)
             || (text == "ACTIVE" && e.status == Enrollments.Active))
       && e.startedAt == (if e.status == Enrollments.Active then scalars(staged).enrolledAt else None)
       && e.endedAt == None && e.pauseStartedAt == None && e.source == None
  }

  lemma RowIsImported(dir: Directory, t: Enrollments.Table, after: Enrollments.Table, mapping: ColumnMap<Field>,
                      rows: seq<StagedRow>, scalars: StagedRow -> Scalars, i: nat, row: ImportRow)
    requires Keyful(dir) && Numbered(rows) && i < |rows|
    requires var v := Validated(dir, t, mapping, rows, scalars)[i];
             && Valid(v) && row.cells == rows[i].cells && row.status == ImportedRow && row.target.Some?
             && Resolved(v) && |t.rows| <= row.target.value < |after.rows|
             && after.rows[row.target.value] == EnrollmentOf(v)
    ensures RowImported(dir, Reverse(mapping), scalars, t, after, rows[i], row)
  {
    ValidatedExactly(dir, t, mapping, rows, scalars, i);
  }

  lemma CompletedWrote(scalars: StagedRow -> Scalars, x: System<Store, Field>)
    requires Answers(Import(scalars)) && x.batch.status == ValidatedBatch
    requires Confirm(Import(scalars), x).0.batch.status == CompletedBatch
    ensures var verdicts, x' := Check(scalars)(x.store, x.batch.mapping, Cells(x.batch.rows)),
            Confirm(Import(scalars), x).0;
            var w := WriteRows(Import(scalars), x.store, verdicts, |verdicts|);
            && (forall i | 0 <= i < |verdicts| :: verdicts[i].ok) && |verdicts| == |x.batch.rows|
            && w.AllWritten? && x'.store == w.store && x'.batch.rows == Imported(x.batch.rows, w.targets)
  {
    CompletionWrites(Import(scalars), x);
  }

  /** Beside the former enrollments there is one for each row, as the row says, and no other. */
  ghost predicate AllImported(scalars: StagedRow -> Scalars, x: System<Store, Field>, x': System<Store, Field>) {
    var staged := Staged(Cells(x.batch.rows));
    && |x'.store.table.rows| == |x.store.table.rows| + |x.batch.rows| && |x'.batch.rows| == |x.batch.rows|
    && x.store.table.rows <= x'.store.table.rows
    && (forall i | 0 <= i < |x.batch.rows| ::
          RowImported(x.store.dir, Reverse(x.batch.mapping), scalars, x.store.table, x'.store.table, staged[i],
                      x'.batch.rows[i]))
    && (forall i, j | 0 <= i < j < |x.batch.rows| :: x'.batch.rows[i].target != x'.batch.rows[j].target)
  }

  lemma LeftIsImported(scalars: StagedRow -> Scalars, x: System<Store, Field>, x': System<Store, Field>,
                       validated: seq<ValidatedRow>, w: Writes<Store>)
    requires Keyful(x.store.dir)
    requires validated
             == Validated(x.store.dir, x.store.table, x.batch.mapping, Staged(Cells(x.batch.rows)), scalars)
    requires AllResolved(validated) && forall i | 0 <= i < |validated| :: Valid(validated[i])
    requires Left(x.store, w, validated, |validated|) && |validated| == |x.batch.rows|
    requires x'.store == w.store && x'.batch.rows == Imported(x.batch.rows, w.targets)
    ensures AllImported(scalars, x, x')
  {
    var staged := Staged(Cells(x.batch.rows));
    forall i | 0 <= i < |x.batch.rows|
      ensures RowImported(x.store.dir, Reverse(x.batch.mapping), scalars, x.store.table, x'.store.table, staged[i],
                          x'.batch.rows[i])
    {
      assert w.targets[i] == |x.store.table.rows| + i;
      RowIsImported(x.store.dir, x.store.table, x'.store.table, x.batch.mapping, staged, scalars, i, x'.batch.rows[i]);
    }
    forall i, j | 0 <= i < j < |x.batch.rows| ensures x'.batch.rows[i].target != x'.batch.rows[j].target {
      assert w.targets[i] == |x.store.table.rows| + i && w.targets[j] == |x.store.table.rows| + j;
    }
  }

  /** A completed confirmation leaves an enrollment for each row: of the student and in the class its
      codes name, with the status its status cell spells. */
  lemma ConfirmLeaves(scalars: StagedRow -> Scalars, x: System<Store, Field>)
    requires Answers(Import(scalars)) && Keyful(x.store.dir)
    requires x.batch.status == ValidatedBatch && Confirm(Import(scalars), x).0.batch.status == CompletedBatch
    ensures AllImported(scalars, x, Confirm(Import(scalars), x).0)
  {
    var rows := Staged(Cells(x.batch.rows));
    var validated := Validated(x.store.dir, x.store.table, x.batch.mapping, rows, scalars);
    var verdicts := Check(scalars)(x.store, x.batch.mapping, Cells(x.batch.rows));
    CompletedWrote(scalars, x);
    ValidResolved(x.store.dir, x.store.table, x.batch.mapping, rows, scalars, verdicts);
    LoopLeaves(x.store, scalars, verdicts, validated, |verdicts|);
    forall i | 0 <= i < |validated| ensures Valid(validated[i]) { assert verdicts[i].ok; }
    LeftIsImported(scalars, x, Confirm(Import(scalars), x).0, validated,
                   WriteRows(Import(scalars), x.store, verdicts, |verdicts|));
  }

  lemma ValidResolved(dir: Directory, t: Enrollments.Table, mapping: ColumnMap<Field>, rows: seq<StagedRow>,
                      scalars: StagedRow -> Scalars, verdicts: seq<Verdict<ValidatedRow>>)
    requires Keyful(dir) && Numbered(rows)
    requires var validated := Validated(dir, t, mapping, rows, scalars);
             |verdicts| == |rows| && forall i | 0 <= i < |rows| ::
               verdicts[i] == Verdict(validated[i].errors == [], validated[i]) && verdicts[i].ok
    ensures AllResolved(Validated(dir, t, mapping, rows, scalars))
    ensures ItemsAre(verdicts, Validated(dir, t, mapping, rows, scalars))
  {
    var validated := Validated(dir, t, mapping, rows, scalars);
    forall row | row in validated ensures Resolved(row) {
      var i :| 0 <= i < |validated| && validated[i] == row;
      assert verdicts[i].ok;
      ValidatedExactly(dir, t, mapping, rows, scalars, i);
    }
  }

  // ---------- a mapping that its own text does not match ----------

  const TwoColumns: ColumnMap<Field> := [("studentCode", Some(StudentCode)), ("classCode", Some(ClassCode))]

  lemma ShorterFirst()
    ensures JsonbBefore("classCode", "studentCode") && !IsIndex("classCode") && !IsIndex("studentCode")
  {
    AsciiBytes("studentCode");
    AsciiBytes("classCode");
    NotANumber("studentCode");
    NotANumber("classCode");
  }

  lemma NotANumber(s: string)
    requires |s| != 0 && !Digit(s[0])
    ensures !IsIndex(s)
  {
    assert s[0] in s;
  }

  /** The two columns come back from jsonb the other way round: the shorter one first. */
  lemma ColumnsComeBackSwapped()
    ensures DistinctKeys(TwoColumns) && Stored(TwoColumns) == [TwoColumns[1], TwoColumns[0]]
            && !InJsonbOrder(TwoColumns)
  {
    ShorterFirst();
    TwoSwapped(TwoColumns[0], TwoColumns[1]);
    assert TwoColumns == [TwoColumns[0], TwoColumns[1]];
  }

  lemma TwoColumnsAccepted(scalars: StagedRow -> Scalars)
    ensures !MissingRequired(Import(scalars), TwoColumns) && !EntriesBad(Import(scalars), TwoColumns, TwoColumns)
    ensures Remapped(TwoColumns, TwoColumns) == TwoColumns
  {
    assert TwoColumns[0].1 == Some(StudentCode) && TwoColumns[1].1 == Some(ClassCode);
    assert TwoColumns[..0] == [] && TwoColumns[..1] == [TwoColumns[0]];
    assert "studentCode" != "classCode" by { assert |"studentCode"| == 11 && |"classCode"| == 9; }
    assert Lookup(TwoColumns[..1], "studentCode") == Some(StudentCode);
  }

  /** A file with these two columns is uploaded, validated, and its mapping submitted again as it is:
      accepted, and the batch is back to UPLOADED. */
  lemma OwnMappingResets(scalars: StagedRow -> Scalars, store: Store, cells: seq<map<string, string>>)
    ensures Answers(Import(scalars))
    ensures var im, start := Import(scalars), System(store, Upload(TwoColumns, cells));
            var validated := Step(im, start, ValidateCommand);
            && validated.batch.status == ValidatedBatch && validated.batch.mapping == TwoColumns
            && Answer(im, validated, UpdateMappingCommand(TwoColumns)).1 == Done
            && Step(im, validated, UpdateMappingCommand(TwoColumns)).batch.status == Uploaded
  {
    var im, start := Import(scalars), System(store, Upload(TwoColumns, cells));
    ImportAnswers(scalars);
    ValidatesOwn(scalars, store, cells);
    OwnMappingAnswered(scalars, Step(im, start, ValidateCommand));
  }

  lemma ValidatesOwn(scalars: StagedRow -> Scalars, store: Store, cells: seq<map<string, string>>)
    requires Answers(Import(scalars))
    ensures var validated := Step(Import(scalars), System(store, Upload(TwoColumns, cells)), ValidateCommand);
            validated.batch.status == ValidatedBatch && validated.batch.mapping == TwoColumns
  {
    TwoColumnsAccepted(scalars);
  }

  lemma OwnMappingAnswered(scalars: StagedRow -> Scalars, x: System<Store, Field>)
    requires Answers(Import(scalars)) && x.batch.status == ValidatedBatch && x.batch.mapping == TwoColumns
    ensures Answer(Import(scalars), x, UpdateMappingCommand(TwoColumns)).1 == Done
    ensures Step(Import(scalars), x, UpdateMappingCommand(TwoColumns)).batch.status == Uploaded
  {
    TwoColumnsAccepted(scalars);
    ColumnsComeBackSwapped();
    UnchangedKeptExactly(Import(scalars), x.batch, TwoColumns);
  }
}

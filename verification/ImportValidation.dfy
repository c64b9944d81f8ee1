/** Validation of staged enrollment rows against bulk-loaded maps, before anything is written. */
module ImportValidation {
  import opened Collections
  import opened Enrollments

  // ---------- staged cells ----------

  datatype Field = StudentCode | ClassCode | StatusField | EnrolledAt | ExpectedEndDate | Notes

  /** Column headers and the field each is mapped to, in the order of the mapping's entries. */
  type Mapping = seq<(string, Option<Field>)>

  datatype StagedRow = StagedRow(number: nat, cells: map<string, string>)

  /** The white space that String.prototype.trim strips. */
  predicate Blank(c: char) {
    || '\U{9}' <= c <= '\U{D}' || c == ' ' || c == '\U{A0}' || c == '\U{1680}' || '\U{2000}' <= c <= '\U{200A}'
    || c == '\U{2028}' || c == '\U{2029}' || c == '\U{202F}' || c == '\U{205F}' || c == '\U{3000}' || c == '\U{FEFF}'
  }

  function Trim(s: string): string {
    if |s| == 0 then ""
    else if Blank(s[0]) then Trim(s[1..])
    else if Blank(s[|s| - 1]) then Trim(s[..|s| - 1])
    else s
  }

  function UpperChar(c: char): char {
    if 'a' <= c <= 'z' then ((c as int) - 32) as char else c
  }

  function Upper(s: string): string {
    Map(s, UpperChar)
  }

  /** The reverse of a mapping: where a field was mapped twice, the later header wins. */
  function Reverse(mapping: Mapping): map<Field, string> {
    if |mapping| == 0 then map[]
    else
      var (header, target) := mapping[|mapping| - 1];
      var front := Reverse(mapping[..|mapping| - 1]);
      if target.Some? then front[target.value := header] else front
  }

  /** normalizedText: the trimmed cell a field is mapped to, unless absent or empty. */
  function Text(row: StagedRow, reverse: map<Field, string>, field: Field): Option<string> {
    if field !in reverse || reverse[field] !in row.cells then None
    else
      var text := Trim(row.cells[reverse[field]]);
      if text == "" then None else Some(text)
  }

  function Code(row: StagedRow, reverse: map<Field, string>, field: Field): Option<string> {
    var text := Text(row, reverse, field);
    if text.None? then None else Some(Upper(text.value))
  }

  function InitialOf(text: string): Option<Status> {
    if text == "PENDING" then Some(Pending)
    else if text == "TRIAL" then Some(Trial)
    else if text == "ACTIVE" then Some(Active)
    else None
  }

  // ---------- what is loaded ----------

  datatype StudentRef = StudentRef(id: Id, active: bool)
  datatype ClassRef = ClassRef(id: Id, active: bool, capacity: Option<nat>)

  /** The students and classes tables by upper-case code. */
  datatype Directory = Directory(students: map<string, StudentRef>, classes: map<string, ClassRef>)

  datatype Snapshot = Snapshot(students: map<string, StudentRef>, classes: map<string, ClassRef>, pairs: set<(Id, Id)>,
                               consuming: map<Id, nat>)

  function Codes(rows: seq<StagedRow>, reverse: map<Field, string>, field: Field): set<string> {
    set row | row in rows && Code(row, reverse, field).Some? :: Code(row, reverse, field).value
  }

  function StudentsOf(dir: Directory, codes: set<string>): map<string, StudentRef> {
    map code | code in codes && code in dir.students :: dir.students[code]
  }

  function ClassesOf(dir: Directory, codes: set<string>): map<string, ClassRef> {
    map code | code in codes && code in dir.classes :: dir.classes[code]
  }

  function StudentIds(students: map<string, StudentRef>): set<Id> {
    set code | code in students :: students[code].id
  }

  function ClassIds(classes: map<string, ClassRef>): set<Id> {
    set code | code in classes :: classes[code].id
  }

  function PairsOf(t: Table, students: set<Id>, classes: set<Id>): set<(Id, Id)> {
    set i | 0 <= i < |t.rows| && Operational(t.rows[i].status) && t.rows[i].student in students
      && t.rows[i].class_ in classes ::
      (t.rows[i].student, t.rows[i].class_)
  }

  /** GROUP BY class_id: a class without consuming enrollments has no row. */
  function ConsumingOf(t: Table, classes: set<Id>): map<Id, nat> {
    map c | c in classes && Consumers(t.rows, c, None) > 0 :: Consumers(t.rows, c, None)
  }

  function Loaded(dir: Directory, t: Table, rows: seq<StagedRow>, reverse: map<Field, string>): Snapshot {
    var students := StudentsOf(dir, Codes(rows, reverse, StudentCode));
    var classes := ClassesOf(dir, Codes(rows, reverse, ClassCode));
    Snapshot(students, classes, PairsOf(t, StudentIds(students), ClassIds(classes)), ConsumingOf(t, ClassIds(classes)))
  }

  // ---------- one row ----------

  datatype IssueCode =
    Required | InvalidFormat | Missing | InvalidRelation | AlreadyExists | DuplicateInFile | CapacityConflict
  datatype Issue = Issue(code: IssueCode, field: Field)

  /** The create contract's verdict on the remaining scalar cells. */
  datatype Scalars = Scalars(issues: seq<Issue>, enrolledAt: Option<int>)

  datatype ValidatedRow = ValidatedRow(number: nat, errors: seq<Issue>, student: Option<Id>, class_: Option<Id>,
                                       status: Status, enrolledAt: Option<int>)

  /** What validateRow has read of a row before it judges it. */
  datatype Reading = Reading(student: Option<string>, class_: Option<string>, badStatus: bool, status: Status)

  function Read(row: StagedRow, reverse: map<Field, string>): Reading {
    var text := Text(row, reverse, StatusField);
    var parsed := if text.None? then None else InitialOf(text.value);
    Reading(Code(row, reverse, StudentCode), Code(row, reverse, ClassCode), text.Some? && parsed.None?,
            if parsed.Some? then parsed.value else Pending)
  }

  function If(condition: bool, code: IssueCode, field: Field): seq<Issue> {
    if condition then [Issue(code, field)] else []
  }

  function StudentFor(s: Snapshot, r: Reading): Option<StudentRef> {
    if r.student.Some? && r.student.value in s.students then Some(s.students[r.student.value]) else None
  }

  function ClassFor(s: Snapshot, r: Reading): Option<ClassRef> {
    if r.class_.Some? && r.class_.value in s.classes then Some(s.classes[r.class_.value]) else None
  }

  function Identity(r: Reading): Option<string> {
    if r.student.Some? && r.class_.Some? then Some(r.student.value + "|" + r.class_.value) else None
  }

  predicate Repeats(keys: map<string, nat>, r: Reading, number: nat) {
    Identity(r).Some? && Identity(r).value in keys && keys[Identity(r).value] != number
  }

  function Judged(s: Snapshot, keys: map<string, nat>, number: nat, r: Reading, scalars: Scalars): ValidatedRow {
    var student, class_ := StudentFor(s, r), ClassFor(s, r);
    var active := r.status != Pending;
    ValidatedRow(number,
                 If(r.student.None?, Required, StudentCode)
                 + If(r.class_.None?, Required, ClassCode)
                 + If(r.badStatus, InvalidFormat, StatusField)
                 + If(r.student.Some? && student.None?, Missing, StudentCode)
                 + If(r.class_.Some? && class_.None?, Missing, ClassCode)
                 + If(student.Some? && active && !student.value.active, InvalidRelation, StudentCode)
                 + If(class_.Some? && active && !class_.value.active, InvalidRelation, ClassCode)
                 + If(student.Some? && class_.Some? && (student.value.id, class_.value.id) in s.pairs,
                      AlreadyExists, ClassCode)
                 + If(Repeats(keys, r, number), DuplicateInFile, StudentCode)
                 + scalars.issues,
                 if student.Some? then Some(student.value.id) else None,
                 if class_.Some? then Some(class_.value.id) else None,
                 r.status, scalars.enrolledAt)
  }

  /** The first row with an identity keeps it. */
  function Keyed(keys: map<string, nat>, number: nat, r: Reading): map<string, nat> {
    if Identity(r).None? || Repeats(keys, r, number) then keys else keys[Identity(r).value := number]
  }

  /** The identities met in the first k rows. */
  function Keys(rows: seq<StagedRow>, reverse: map<Field, string>, k: nat): map<string, nat>
    requires k <= |rows|
  {
    if k == 0 then map[] else Keyed(Keys(rows, reverse, k - 1), rows[k - 1].number, Read(rows[k - 1], reverse))
  }

  /** The rows as they stand before the capacity check. */
  function RowsJudged(s: Snapshot, rows: seq<StagedRow>, reverse: map<Field, string>, scalars: StagedRow -> Scalars,
                      k: nat)
    : (judged: seq<ValidatedRow>)
    requires k <= |rows|
    ensures |judged| == k
  {
    if k == 0 then []
    else
      RowsJudged(s, rows, reverse, scalars, k - 1)
      + [Judged(s, Keys(rows, reverse, k - 1), rows[k - 1].number, Read(rows[k - 1], reverse), scalars(rows[k - 1]))]
  }

  // ---------- the grouped capacity check ----------

  predicate Valid(row: ValidatedRow) {
    row.errors == []
  }

  predicate Asks(row: ValidatedRow, class_: Id) {
    Valid(row) && row.class_ == Some(class_)
  }

  function Demand(rows: seq<ValidatedRow>, class_: Id): nat {
    if |rows| == 0 then 0
    else Demand(rows[..|rows| - 1], class_) + if Asks(rows[|rows| - 1], class_) then 1 else 0
  }

  function Existing(s: Snapshot, class_: Id): nat {
    if class_ in s.consuming then s.consuming[class_] else 0
  }

  /** The batch asks for more seats than the class has left. */
  predicate Flagged(s: Snapshot, rows: seq<ValidatedRow>, class_: Id) {
    && Demand(rows, class_) > 0
    && exists code | code in s.classes :: s.classes[code].id == class_ && s.classes[code].capacity.Some?
                     && Existing(s, class_) + Demand(rows, class_) > s.classes[code].capacity.value
  }

  predicate Conflicts(s: Snapshot, rows: seq<ValidatedRow>, row: ValidatedRow) {
    Valid(row) && row.class_.Some? && Flagged(s, rows, row.class_.value)
  }

  function WithConflict(s: Snapshot, rows: seq<ValidatedRow>): ValidatedRow -> ValidatedRow {
    (row: ValidatedRow) =>
      if Conflicts(s, rows, row) then row.(errors := row.errors + [Issue(CapacityConflict, ClassCode)]) else row
  }

  predicate Mapped(reverse: map<Field, string>) {
    StudentCode in reverse && ClassCode in reverse
  }

  /** runValidation, once the required fields are mapped. */
  function Validated(dir: Directory, t: Table, mapping: Mapping, rows: seq<StagedRow>, scalars: StagedRow -> Scalars)
    : seq<ValidatedRow>
  {
    var reverse := Reverse(mapping);
    var s := Loaded(dir, t, rows, reverse);
    var judged := RowsJudged(s, rows, reverse, scalars, |rows|);
    Map(judged, WithConflict(s, judged))
  }

  // ---------- the validator itself ----------

  /** Primary keys: no two codes share an id. */
  ghost predicate Keyful(dir: Directory) {
    && (forall a, b | a in dir.students && b in dir.students && dir.students[a].id == dir.students[b].id :: a == b)
    && (forall a, b | a in dir.classes && b in dir.classes && dir.classes[a].id == dir.classes[b].id :: a == b)
  }

  method BuildReverseMap(mapping: Mapping) returns (reverse: map<Field, string>)
    ensures reverse == Reverse(mapping)
  {
    reverse := map[];
    for i := 0 to |mapping|
      invariant reverse == Reverse(mapping[..i])
    {
      var (header, target) := mapping[i];
      assert mapping[..i + 1][..i] == mapping[..i];
      if target.Some? { reverse := reverse[target.value := header]; }
    }
    assert mapping[..|mapping|] == mapping;
  }

  /** A mapped field reads the last header mapped to it. */
  lemma {:induction false} ReverseIsLast(mapping: Mapping, field: Field)
    ensures field in Reverse(mapping) <==> exists i | 0 <= i < |mapping| :: mapping[i].1 == Some(field)
    ensures field in Reverse(mapping) ==>
      exists i | 0 <= i < |mapping| ::
        mapping[i] == (Reverse(mapping)[field], Some(field))
        && forall j | i < j < |mapping| :: mapping[j].1 != Some(field)
  {
    if |mapping| != 0 {
      var n := |mapping| - 1;
      var front := mapping[..n];
      ReverseIsLast(front, field);
      if mapping[n].1 == Some(field) {
        assert mapping[n] == (Reverse(mapping)[field], Some(field));
      } else if field in Reverse(front) {
        var i :| 0 <= i < |front| && front[i] == (Reverse(front)[field], Some(field))
                 && forall j | i < j < |front| :: front[j].1 != Some(field);
        assert mapping[i] == (Reverse(mapping)[field], Some(field));
      }
    }
  }

  class ImportRowValidator {
    var students: map<string, StudentRef>
    var classes: map<string, ClassRef>
    var operationalPairs: set<(Id, Id)>
    var consumingByClass: map<Id, nat>

    constructor ()
      ensures Contents() == Snapshot(map[], map[], {}, map[])
    {
      students, classes, operationalPairs, consumingByClass := map[], map[], {}, map[];
    }

    function Contents(): Snapshot
      reads this
    {
      Snapshot(students, classes, operationalPairs, consumingByClass)
    }

    method CodesOf(rows: seq<StagedRow>, reverse: map<Field, string>, field: Field) returns (codes: set<string>)
      ensures codes == Codes(rows, reverse, field)
    {
      codes := {};
      for i := 0 to |rows|
        invariant codes == Codes(rows[..i], reverse, field)
      {
        var code := Code(rows[i], reverse, field);
        assert rows[..i + 1] == rows[..i] + [rows[i]];
        if code.Some? { codes := codes + {code.value}; }
      }
      assert rows[..|rows|] == rows;
    }

    method Load(dir: Directory, t: Table, rows: seq<StagedRow>, reverse: map<Field, string>)
      modifies this
      ensures Contents() == Loaded(dir, t, rows, reverse)
    {
      var studentCodes := CodesOf(rows, reverse, StudentCode);
      students := StudentsOf(dir, studentCodes);
      var classCodes := CodesOf(rows, reverse, ClassCode);
      classes := ClassesOf(dir, classCodes);
      operationalPairs := PairsOf(t, StudentIds(students), ClassIds(classes));
      consumingByClass := ConsumingOf(t, ClassIds(classes));
    }

    /** Pushes every issue of one row; `keys` are the identities of the rows before it. */
    method ValidateRow(row: StagedRow, reverse: map<Field, string>, keys: map<string, nat>, scalars: Scalars)
      returns (v: ValidatedRow, keys': map<string, nat>)
      ensures v == Judged(Contents(), keys, row.number, Read(row, reverse), scalars)
      ensures keys' == Keyed(keys, row.number, Read(row, reverse))
    {
      var r := Read(row, reverse);
      var errors := If(r.student.None?, Required, StudentCode);
      errors := errors + If(r.class_.None?, Required, ClassCode);
      errors := errors + If(r.badStatus, InvalidFormat, StatusField);
      var student, class_ := StudentFor(Contents(), r), ClassFor(Contents(), r);
      errors := errors + If(r.student.Some? && student.None?, Missing, StudentCode);
      errors := errors + If(r.class_.Some? && class_.None?, Missing, ClassCode);
      var active := r.status != Pending;
      errors := errors + If(student.Some? && active && !student.value.active, InvalidRelation, StudentCode);
      errors := errors + If(class_.Some? && active && !class_.value.active, InvalidRelation, ClassCode);
      errors := errors + If(student.Some? && class_.Some? && (student.value.id, class_.value.id) in operationalPairs,
                            AlreadyExists, ClassCode);
      keys' := keys;
      errors := errors + If(Repeats(keys, r, row.number), DuplicateInFile, StudentCode);
      if Identity(r).Some? && !Repeats(keys, r, row.number) {
        keys' := keys[Identity(r).value := row.number];
      }
      errors := errors + scalars.issues;
      v := ValidatedRow(row.number, errors, if student.Some? then Some(student.value.id) else None,
                        if class_.Some? then Some(class_.value.id) else None, r.status, scalars.enrolledAt);
    }

    method CountDemand(rows: seq<ValidatedRow>) returns (demand: map<Id, nat>)
      ensures forall c :: c in demand <==> Demand(rows, c) > 0
      ensures forall c | c in demand :: demand[c] == Demand(rows, c)
    {
      demand := map[];
      for i := 0 to |rows|
        invariant forall c :: c in demand <==> Demand(rows[..i], c) > 0
        invariant forall c | c in demand :: demand[c] == Demand(rows[..i], c)
      {
        var row := rows[i];
        assert rows[..i + 1][..i] == rows[..i];
        if Valid(row) && row.class_.Some? {
          var c := row.class_.value;
          demand := demand[c := (if c in demand then demand[c] else 0) + 1];
        }
      }
      assert rows[..|rows|] == rows;
    }

    /** The capacity of the class with an id, found among the loaded codes. */
    method CapacityOf(class_: Id) returns (capacity: Option<nat>)
      requires forall a, b | a in classes && b in classes && classes[a].id == classes[b].id :: a == b
      ensures forall code | code in classes && classes[code].id == class_ :: capacity == classes[code].capacity
      ensures (forall code | code in classes :: classes[code].id != class_) ==> capacity == None
    {
      var todo := classes.Keys;
      capacity := None;
      while todo != {}
        invariant todo <= classes.Keys
        invariant forall code | code in classes && code !in todo :: classes[code].id != class_
        invariant capacity == None
        decreases |todo|
      {
        var code :| code in todo;
        if classes[code].id == class_ { return classes[code].capacity; }
        todo := todo - {code};
      }
    }

    /** The numbers of the rows whose class cannot seat the whole batch. */
    method CapacityDemandErrors(rows: seq<ValidatedRow>) returns (conflicts: set<nat>)
      requires forall a, b | a in classes && b in classes && classes[a].id == classes[b].id :: a == b
      ensures forall n ::
        n in conflicts <==> exists row | row in rows :: row.number == n && Conflicts(Contents(), rows, row)
    {
      conflicts := {};
      var demand := CountDemand(rows);
      var todo := demand.Keys;
      while todo != {}
        invariant todo <= demand.Keys
        invariant forall n :: n in conflicts <==> exists row | row in rows ::
          row.number == n && Conflicts(Contents(), rows, row) && row.class_.value !in todo
        decreases |todo|
      {
        var c :| c in todo;
        var capacity := CapacityOf(c);
        todo := todo - {c};
        if capacity.Some? && (if c in consumingByClass then consumingByClass[c] else 0) + demand[c] > capacity.value {
          assert Flagged(Contents(), rows, c);
          conflicts := conflicts + set row | row in rows && Asks(row, c) :: row.number;
        } else {
          assert !Flagged(Contents(), rows, c);
        }
      }
      forall row | row in rows && Conflicts(Contents(), rows, row) ensures row.class_.value in demand {}
    }
  }

  /** validator.validateRow over the staged rows, in order. */
  method JudgeRows(validator: ImportRowValidator, rows: seq<StagedRow>, reverse: map<Field, string>,
                   scalars: StagedRow -> Scalars)
    returns (judged: seq<ValidatedRow>)
    ensures judged == RowsJudged(validator.Contents(), rows, reverse, scalars, |rows|)
  {
    judged := [];
    var keys: map<string, nat> := map[];
    for i := 0 to |rows|
      invariant keys == Keys(rows, reverse, i)
      invariant judged == RowsJudged(validator.Contents(), rows, reverse, scalars, i)
    {
      var v, keys' := validator.ValidateRow(rows[i], reverse, keys, scalars(rows[i]));
      keys := keys';
      judged := judged + [v];
    }
  }

  /** Pushes the capacity error onto each row whose number the capacity check returned. */
  method MarkConflicts(s: Snapshot, judged: seq<ValidatedRow>, conflicts: set<nat>) returns (marked: seq<ValidatedRow>)
    requires forall i, j | 0 <= i < j < |judged| :: judged[i].number != judged[j].number
    requires forall n :: n in conflicts <==> exists row | row in judged :: row.number == n && Conflicts(s, judged, row)
    ensures marked == Map(judged, WithConflict(s, judged))
  {
    marked := [];
    for i := 0 to |judged|
      invariant |marked| == i
      invariant forall j | 0 <= j < i :: marked[j] == WithConflict(s, judged)(judged[j])
    {
      var row := judged[i];
      assert row in judged;
      assert row.number in conflicts <==> Conflicts(s, judged, row) by {
        forall other | other in judged && other.number == row.number ensures other == row {}
      }
      marked := marked + [if row.number in conflicts
                          then row.(errors := row.errors + [Issue(CapacityConflict, ClassCode)]) else row];
    }
  }

  /** runValidation: a fresh validator over the rows, then the grouped capacity check. */
  method RunValidation(dir: Directory, t: Table, mapping: Mapping, rows: seq<StagedRow>, scalars: StagedRow -> Scalars)
    returns (mapped: bool, validated: seq<ValidatedRow>)
    requires Keyful(dir)
    requires forall i, j | 0 <= i < j < |rows| :: rows[i].number != rows[j].number
    ensures mapped <==> Mapped(Reverse(mapping))
    ensures mapped ==> validated == Validated(dir, t, mapping, rows, scalars)
  {
    validated := [];
    var reverse := BuildReverseMap(mapping);
    mapped := StudentCode in reverse && ClassCode in reverse;
    if !mapped { return; }
    var validator := new ImportRowValidator();
    validator.Load(dir, t, rows, reverse);
    var judged := JudgeRows(validator, rows, reverse, scalars);
    NumbersKept(validator.Contents(), rows, reverse, scalars, |rows|);
    var conflicts := validator.CapacityDemandErrors(judged);
    validated := MarkConflicts(validator.Contents(), judged, conflicts);
  }

  lemma {:induction false} NumbersKept(s: Snapshot, rows: seq<StagedRow>, reverse: map<Field, string>,
                                       scalars: StagedRow -> Scalars, k: nat)
    requires k <= |rows|
    ensures forall i | 0 <= i < k :: RowsJudged(s, rows, reverse, scalars, k)[i].number == rows[i].number
  {
    if k != 0 { NumbersKept(s, rows, reverse, scalars, k - 1); }
  }
}

/** Which staged rows are valid, what they carry, and which enrollments a confirmation leaves, in terms
    of the cells and the tables. */
module ImportDecisions {
  import opened Collections
  import opened Enrollments
  import opened ImportValidation
  import opened ImportPredictor
  import EnrollmentDecisions

  // ---------- cells ----------

  const Lower := "abcdefghijklmnopqrstuvwxyz"
  const Capital := "ABCDEFGHIJKLMNOPQRSTUVWXYZ"

  /** Codes read alike whatever the case of their ASCII letters; every other character counts as it is. */
  lemma UpperExactly(s: string)
    ensures |Upper(s)| == |s|
    ensures forall i | 0 <= i < |s| ::
              && (forall k | 0 <= k < 26 && s[i] == Lower[k] :: Upper(s)[i] == Capital[k])
              && (s[i] !in Lower ==> Upper(s)[i] == s[i])
  {
    assert Lower[0] == 'a' && Lower[25] == 'z';
    forall i | 0 <= i < |s| && s[i] !in Lower ensures !('a' <= s[i] <= 'z') {
      if 'a' <= s[i] <= 'z' {
        var k := (s[i] as int) - ('a' as int);
        InAlphabet(k);
      }
    }
    forall k | 0 <= k < 26 ensures Lower[k] as int == 'a' as int + k && Capital[k] as int == 'A' as int + k {
      InAlphabet(k);
    }
  }

  lemma InAlphabet(k: int)
    requires 0 <= k < 26
    ensures Lower[k] as int == 'a' as int + k && Capital[k] as int == 'A' as int + k && Lower[k] in Lower
  {}

  /** White space is what the language counts as such, by code point. */
  lemma BlankExactly(c: char)
    ensures Blank(c)
            <==> c as int in {9, 10, 11, 12, 13, 32, 160, 5760, 8192, 8193, 8194, 8195, 8196, 8197, 8198, 8199, 8200,
                              8201, 8202, 8232, 8233, 8239, 8287, 12288, 65279}
  {}

  /** The text is what stands between i and j, and only white space stands outside. */
  ghost predicate CutAt(s: string, text: string, i: nat, j: nat) {
    && i <= j <= |s| && text == s[i..j]
    && (forall k | 0 <= k < i :: Blank(s[k])) && (forall k | j <= k < |s| :: Blank(s[k]))
  }

  lemma CutFront(s: string, text: string, i: nat, j: nat)
    requires s != "" && Blank(s[0]) && CutAt(s[1..], text, i, j)
    ensures CutAt(s, text, i + 1, j + 1)
  {
    forall k | 0 <= k < i + 1 ensures Blank(s[k]) { if k != 0 { assert s[k] == s[1..][k - 1]; } }
    forall k | j + 1 <= k < |s| ensures Blank(s[k]) { assert s[k] == s[1..][k - 1]; }
  }

  lemma CutBack(s: string, text: string, i: nat, j: nat)
    requires s != "" && Blank(s[|s| - 1]) && CutAt(s[..|s| - 1], text, i, j)
    ensures CutAt(s, text, i, j)
  {
    forall k | 0 <= k < i ensures Blank(s[k]) { assert s[k] == s[..|s| - 1][k]; }
    forall k | j <= k < |s| ensures Blank(s[k]) { if k != |s| - 1 { assert s[k] == s[..|s| - 1][k]; } }
  }

  /** Trimming cuts the white space off both ends, and nothing else. */
  lemma {:induction false} TrimExactly(s: string)
    ensures exists i: nat, j: nat :: CutAt(s, Trim(s), i, j)
    ensures Trim(s) != "" ==> !Blank(Trim(s)[0]) && !Blank(Trim(s)[|Trim(s)| - 1])
  {
    if s == "" {
      assert Trim(s) == s[0..0];
      assert CutAt(s, Trim(s), 0, 0);
    } else if Blank(s[0]) {
      TrimExactly(s[1..]);
      var i: nat, j: nat :| CutAt(s[1..], Trim(s), i, j);
      CutFront(s, Trim(s), i, j);
    } else if Blank(s[|s| - 1]) {
      TrimExactly(s[..|s| - 1]);
      var i: nat, j: nat :| CutAt(s[..|s| - 1], Trim(s), i, j);
      CutBack(s, Trim(s), i, j);
    } else {
      assert Trim(s) == s == s[0..|s|];
      assert CutAt(s, s, 0, |s|);
    }
  }

  /** The initial status a status cell spells. */
  ghost predicate Spells(text: Option<string>, status: Status) {
    || ((text == None || text == Some("PENDING")) && status == Pending)
    || (text == Some("TRIAL") && status == Trial)
    || (text == Some("ACTIVE") && status == Active)
  }

  lemma ReadSpells(row: StagedRow, reverse: map<Field, string>)
    ensures var text, r := Text(row, reverse, StatusField), Read(row, reverse);
            && (r.badStatus <==> forall status :: !Spells(text, status))
            && (!r.badStatus ==> Spells(text, r.status))
            && (r.badStatus ==> r.status == Pending)
  {
    var text := Text(row, reverse, StatusField);
    assert Spells(text, Pending) || Spells(text, Trial) || Spells(text, Active)
      <==> text in {None, Some("PENDING"), Some("TRIAL"), Some("ACTIVE")};
  }

  // ---------- rows of one file ----------

  /** Two rows whose student and class codes read alike, joined. */
  ghost predicate SameCodes(x: StagedRow, y: StagedRow, reverse: map<Field, string>) {
    && Code(x, reverse, StudentCode).Some? && Code(x, reverse, ClassCode).Some?
    && Code(y, reverse, StudentCode).Some? && Code(y, reverse, ClassCode).Some?
    && Code(x, reverse, StudentCode).value + "|" + Code(x, reverse, ClassCode).value
       == Code(y, reverse, StudentCode).value + "|" + Code(y, reverse, ClassCode).value
  }

  lemma SameIdentity(x: StagedRow, y: StagedRow, reverse: map<Field, string>)
    ensures SameCodes(x, y, reverse)
            <==> Identity(Read(x, reverse)).Some? && Identity(Read(x, reverse)) == Identity(Read(y, reverse))
  {}

  /** What was kept under an identity is the number of a row that has it. */
  lemma {:induction false} KeysKept(rows: seq<StagedRow>, reverse: map<Field, string>, k: nat, key: string)
    requires k <= |rows| && key in Keys(rows, reverse, k)
    ensures exists j | 0 <= j < k ::
              rows[j].number == Keys(rows, reverse, k)[key] && Identity(Read(rows[j], reverse)) == Some(key)
  {
    if key in Keys(rows, reverse, k - 1) && Keys(rows, reverse, k - 1)[key] == Keys(rows, reverse, k)[key] {
      KeysKept(rows, reverse, k - 1, key);
    } else {
      assert Identity(Read(rows[k - 1], reverse)) == Some(key);
    }
  }

  /** A row repeats exactly when an earlier one reads the same joined codes. */
  lemma RepeatsExactly(rows: seq<StagedRow>, reverse: map<Field, string>, i: nat)
    requires Numbered(rows) && i < |rows|
    ensures Repeats(Keys(rows, reverse, i), Read(rows[i], reverse), rows[i].number)
            <==> exists j | 0 <= j < i :: SameCodes(rows[j], rows[i], reverse)
  {
    var r := Read(rows[i], reverse);
    if Repeats(Keys(rows, reverse, i), r, rows[i].number) {
      KeysKept(rows, reverse, i, Identity(r).value);
      var j :| 0 <= j < i && Identity(Read(rows[j], reverse)) == Identity(r);
      SameIdentity(rows[j], rows[i], reverse);
    }
    if j :| 0 <= j < i && SameCodes(rows[j], rows[i], reverse) {
      SameIdentity(rows[j], rows[i], reverse);
      LaterRepeats(rows, reverse, j, i);
    }
  }

  /** Codes without the joining bar read alike joined only if both are the same. */
  lemma {:induction false} JoinedApart(a: string, b: string, c: string, d: string)
    requires a + "|" + b == c + "|" + d && '|' !in a && '|' !in c
    ensures a == c && b == d
  {
    if a == "" || c == "" {
      assert (a + "|" + b)[0] == (c + "|" + d)[0];
      assert a == c;
      assert (a + "|" + b)[1..] == (c + "|" + d)[1..];
      assert b == ("|" + b)[1..] && d == ("|" + d)[1..];
    } else {
      assert a[0] == (a + "|" + b)[0] == (c + "|" + d)[0] == c[0];
      assert a[1..] + "|" + b == (a + "|" + b)[1..] && c[1..] + "|" + d == (c + "|" + d)[1..];
      assert a == [a[0]] + a[1..] && c == [c[0]] + c[1..];
      JoinedApart(a[1..], b, c[1..], d);
    }
  }

  /** Of rows with both codes and no bar in the student's, only those of one pair repeat each other. */
  lemma SamePairExactly(x: StagedRow, y: StagedRow, reverse: map<Field, string>)
    requires Code(x, reverse, StudentCode).Some? && Code(x, reverse, ClassCode).Some?
    requires Code(y, reverse, StudentCode).Some? && Code(y, reverse, ClassCode).Some?
    requires '|' !in Code(x, reverse, StudentCode).value && '|' !in Code(y, reverse, StudentCode).value
    ensures SameCodes(x, y, reverse)
            <==> && Code(x, reverse, StudentCode) == Code(y, reverse, StudentCode)
                 && Code(x, reverse, ClassCode) == Code(y, reverse, ClassCode)
  {
    if SameCodes(x, y, reverse) {
      JoinedApart(Code(x, reverse, StudentCode).value, Code(x, reverse, ClassCode).value,
                  Code(y, reverse, StudentCode).value, Code(y, reverse, ClassCode).value);
    }
  }

  const TwoFields: map<Field, string> := map[StudentCode := "s", ClassCode := "c"]

  function RowOf(number: nat, student: string, class_: string): StagedRow {
    StagedRow(number, map["s" := student, "c" := class_])
  }

  lemma CodesOf(number: nat, student: string, class_: string)
    requires student != "" && !Blank(student[0]) && !Blank(student[|student| - 1])
    requires class_ != "" && !Blank(class_[0]) && !Blank(class_[|class_| - 1])
    ensures Code(RowOf(number, student, class_), TwoFields, StudentCode) == Some(Upper(student))
    ensures Code(RowOf(number, student, class_), TwoFields, ClassCode) == Some(Upper(class_))
  {
    assert "s" != "c" by { assert "s"[0] != "c"[0]; }
  }

  /** With a bar in a code, rows of two different pairs can read as one: student A|B in class C, then
      student A in class B|C. The second is refused as a repetition of the first. */
  lemma BarredCodesRepeat()
    ensures var rows := [RowOf(1, "A|B", "C"), RowOf(2, "A", "B|C")];
            && Code(rows[0], TwoFields, StudentCode) == Some("A|B")
            && Code(rows[1], TwoFields, StudentCode) == Some("A")
            && Repeats(Keys(rows, TwoFields, 1), Read(rows[1], TwoFields), 2)
  {
    var rows := [RowOf(1, "A|B", "C"), RowOf(2, "A", "B|C")];
    CodesOf(1, "A|B", "C");
    CodesOf(2, "A", "B|C");
    assert Upper("A|B") == "A|B" && Upper("C") == "C" && Upper("A") == "A" && Upper("B|C") == "B|C";
    assert "A|B" + "|" + "C" == "A" + "|" + "B|C";
    assert SameCodes(rows[0], rows[1], TwoFields);
    RepeatsExactly(rows, TwoFields, 1);
  }

  // ---------- one row ----------

  /** The row names a known student and class, both active unless it is pending, without an enrollment of
      the one in the other that still counts; its status is one of the three, no earlier row has its
      codes, and its other cells pass. */
  ghost predicate Passes(dir: Directory, t: Table, rows: seq<StagedRow>, reverse: map<Field, string>,
                         scalars: StagedRow -> Scalars, i: nat)
    requires i < |rows|
  {
    var student, class_, status :=
      Code(rows[i], reverse, StudentCode), Code(rows[i], reverse, ClassCode), Text(rows[i], reverse, StatusField);
    && student.Some? && student.value in dir.students && class_.Some? && class_.value in dir.classes
    && status in {None, Some("PENDING"), Some("TRIAL"), Some("ACTIVE")}
    && (status in {Some("TRIAL"), Some("ACTIVE")} ==>
          dir.students[student.value].active && dir.classes[class_.value].active)
    && (forall e | e in t.rows && e.student == dir.students[student.value].id
                   && e.class_ == dir.classes[class_.value].id ::
          e.status !in {Pending, Trial, Active, Paused})
    && (forall j | 0 <= j < i :: !SameCodes(rows[j], rows[i], reverse))
    && scalars(rows[i]).issues == []
  }

  lemma FoundInStore(dir: Directory, t: Table, rows: seq<StagedRow>, reverse: map<Field, string>, i: nat)
    requires i < |rows|
    ensures var s, r := Loaded(dir, t, rows, reverse), Read(rows[i], reverse);
            && StudentFor(s, r) == (if r.student.Some? && r.student.value in dir.students
                                    then Some(dir.students[r.student.value]) else None)
            && ClassFor(s, r) == (if r.class_.Some? && r.class_.value in dir.classes
                                  then Some(dir.classes[r.class_.value]) else None)
            && (StudentFor(s, r).Some? && ClassFor(s, r).Some? ==>
                  ((StudentFor(s, r).value.id, ClassFor(s, r).value.id) in s.pairs
                   <==> exists e | e in t.rows ::
                          e.student == StudentFor(s, r).value.id && e.class_ == ClassFor(s, r).value.id
                          && e.status in {Pending, Trial, Active, Paused}))
  {
    assert rows[i] in rows;
    var s, r := Loaded(dir, t, rows, reverse), Read(rows[i], reverse);
    if StudentFor(s, r).Some? && ClassFor(s, r).Some? {
      assert r.student.value in s.students && r.class_.value in s.classes;
      if e :| e in t.rows && e.student == StudentFor(s, r).value.id && e.class_ == ClassFor(s, r).value.id
              && e.status in {Pending, Trial, Active, Paused} {
        var k :| 0 <= k < |t.rows| && t.rows[k] == e;
        assert Operational(t.rows[k].status);
      }
    }
  }

  /** The row as it stands before the capacity check: valid exactly if it passes, with the ids of its
      codes and the status it spells. */
  lemma JudgedExactly(dir: Directory, t: Table, rows: seq<StagedRow>, reverse: map<Field, string>,
                      scalars: StagedRow -> Scalars, i: nat)
    requires Numbered(rows) && i < |rows|
    ensures var v := RowsJudged(Loaded(dir, t, rows, reverse), rows, reverse, scalars, |rows|)[i];
            && (v.errors == [] <==> Passes(dir, t, rows, reverse, scalars, i))
            && v.number == rows[i].number && v.enrolledAt == scalars(rows[i]).enrolledAt
            && (var code := Code(rows[i], reverse, StudentCode);
                v.student
                == if code.Some? && code.value in dir.students then Some(dir.students[code.value].id) else None)
            && (var code := Code(rows[i], reverse, ClassCode);
                v.class_ == if code.Some? && code.value in dir.classes then Some(dir.classes[code.value].id) else None)
            && ((exists status :: Spells(Text(rows[i], reverse, StatusField), status)) ==>
                  Spells(Text(rows[i], reverse, StatusField), v.status))
  {
    var s := Loaded(dir, t, rows, reverse);
    JudgedAt(s, rows, reverse, scalars, |rows|, i);
    FoundInStore(dir, t, rows, reverse, i);
    ReadSpells(rows[i], reverse);
    RepeatsExactly(rows, reverse, i);
    JudgedErrors(s, Keys(rows, reverse, i), rows[i].number, Read(rows[i], reverse), scalars(rows[i]));
    StatusAsks(rows[i], reverse);
  }

  lemma StatusAsks(row: StagedRow, reverse: map<Field, string>)
    ensures var text, r := Text(row, reverse, StatusField), Read(row, reverse);
            && (r.badStatus <==> text !in {None, Some("PENDING"), Some("TRIAL"), Some("ACTIVE")})
            && (r.status != Pending <==> text in {Some("TRIAL"), Some("ACTIVE")})
  {}

  /** No errors, when no check adds one. */
  lemma JudgedErrors(s: Snapshot, keys: map<string, nat>, number: nat, r: Reading, scalars: Scalars)
    ensures var student, class_ := StudentFor(s, r), ClassFor(s, r);
            Judged(s, keys, number, r, scalars).errors == []
            <==> && student.Some? && class_.Some? && !r.badStatus
                 && (r.status != Pending ==> student.value.active && class_.value.active)
                 && (student.value.id, class_.value.id) !in s.pairs && !Repeats(keys, r, number)
                 && scalars.issues == []
  {}

  // ---------- the whole file ----------

  /** Of the first k rows, those that pass and ask for the class. */
  ghost function Asking(dir: Directory, t: Table, rows: seq<StagedRow>, reverse: map<Field, string>,
                        scalars: StagedRow -> Scalars, class_: Id, k: nat): set<nat>
    requires k <= |rows|
  {
    set i: nat | i < k && Passes(dir, t, rows, reverse, scalars, i)
                 && dir.classes[Code(rows[i], reverse, ClassCode).value].id == class_
  }

  function AskingRows(judged: seq<ValidatedRow>, class_: Id, k: nat): set<nat>
    requires k <= |judged|
  {
    set i: nat | i < k && Asks(judged[i], class_)
  }

  lemma {:induction false} DemandCounted(judged: seq<ValidatedRow>, class_: Id, k: nat)
    requires k <= |judged|
    ensures Demand(judged[..k], class_) == |AskingRows(judged, class_, k)|
  {
    if k != 0 {
      DemandCounted(judged, class_, k - 1);
      DemandSnoc(judged, k - 1, class_);
      var before, after := AskingRows(judged, class_, k - 1), AskingRows(judged, class_, k);
      if k - 1 in after { assert after == before + {k - 1}; } else { assert after == before; }
    }
  }

  lemma DemandIsAsking(dir: Directory, t: Table, rows: seq<StagedRow>, reverse: map<Field, string>,
                       scalars: StagedRow -> Scalars, class_: Id)
    requires Numbered(rows)
    ensures Demand(RowsJudged(Loaded(dir, t, rows, reverse), rows, reverse, scalars, |rows|), class_)
            == |Asking(dir, t, rows, reverse, scalars, class_, |rows|)|
  {
    var judged := RowsJudged(Loaded(dir, t, rows, reverse), rows, reverse, scalars, |rows|);
    DemandCounted(judged, class_, |rows|);
    assert judged[..|rows|] == judged;
    forall i: nat | i < |rows|
      ensures Asks(judged[i], class_)
              <==> Passes(dir, t, rows, reverse, scalars, i)
                   && dir.classes[Code(rows[i], reverse, ClassCode).value].id == class_
    {
      JudgedExactly(dir, t, rows, reverse, scalars, i);
    }
    assert AskingRows(judged, class_, |rows|) == Asking(dir, t, rows, reverse, scalars, class_, |rows|);
  }

  /** The class of a row that passes has room for all rows that do, beside the enrollments it has. */
  ghost predicate HasRoom(dir: Directory, t: Table, rows: seq<StagedRow>, reverse: map<Field, string>,
                          scalars: StagedRow -> Scalars, i: nat)
    requires i < |rows| && Passes(dir, t, rows, reverse, scalars, i)
  {
    var class_ := dir.classes[Code(rows[i], reverse, ClassCode).value];
    class_.capacity.Some? ==>
      |EnrollmentDecisions.Seated(t.rows, class_.id, None, |t.rows|)|
      + |Asking(dir, t, rows, reverse, scalars, class_.id, |rows|)| <= class_.capacity.value
  }

  /** A class met in the file is flagged exactly when it lacks the room for those who ask for it. */
  lemma FlaggedExactly(dir: Directory, t: Table, rows: seq<StagedRow>, reverse: map<Field, string>,
                       judged: seq<ValidatedRow>, code: string)
    requires Keyful(dir) && code in Loaded(dir, t, rows, reverse).classes && code in dir.classes
    requires Demand(judged, dir.classes[code].id) > 0
    ensures var class_ := dir.classes[code];
            Flagged(Loaded(dir, t, rows, reverse), judged, class_.id)
            <==> && class_.capacity.Some?
                 && |EnrollmentDecisions.Seated(t.rows, class_.id, None, |t.rows|)| + Demand(judged, class_.id)
                    > class_.capacity.value
  {
    var s, c := Loaded(dir, t, rows, reverse), dir.classes[code].id;
    ExistingIsCount(dir, t, rows, reverse, code);
    EnrollmentDecisions.SeatsCounted(t.rows, c, None, |t.rows|);
    assert t.rows[..|t.rows|] == t.rows;
    forall other | other in s.classes && s.classes[other].id == c ensures other == code {
      assert other in dir.classes && dir.classes[other] == s.classes[other];
    }
  }

  lemma ClassMet(dir: Directory, t: Table, rows: seq<StagedRow>, reverse: map<Field, string>, i: nat)
    requires i < |rows| && Code(rows[i], reverse, ClassCode).Some?
    requires Code(rows[i], reverse, ClassCode).value in dir.classes
    ensures Code(rows[i], reverse, ClassCode).value in Loaded(dir, t, rows, reverse).classes
  {
    assert rows[i] in rows;
  }

  lemma ConflictsExactly(dir: Directory, t: Table, rows: seq<StagedRow>, reverse: map<Field, string>,
                         scalars: StagedRow -> Scalars, i: nat)
    requires Keyful(dir) && Numbered(rows) && i < |rows|
    ensures var s := Loaded(dir, t, rows, reverse);
            var judged := RowsJudged(s, rows, reverse, scalars, |rows|);
            Conflicts(s, judged, judged[i])
            <==> Passes(dir, t, rows, reverse, scalars, i) && !HasRoom(dir, t, rows, reverse, scalars, i)
  {
    var judged := RowsJudged(Loaded(dir, t, rows, reverse), rows, reverse, scalars, |rows|);
    JudgedExactly(dir, t, rows, reverse, scalars, i);
    if Passes(dir, t, rows, reverse, scalars, i) {
      var code := Code(rows[i], reverse, ClassCode).value;
      ClassMet(dir, t, rows, reverse, i);
      DemandIsAsking(dir, t, rows, reverse, scalars, dir.classes[code].id);
      assert i in Asking(dir, t, rows, reverse, scalars, dir.classes[code].id, |rows|);
      FlaggedExactly(dir, t, rows, reverse, judged, code);
    }
  }

  /** What validation says of each row of the file: valid exactly if it passes and its class has room for
      the file; with its number, the ids of its codes, and PENDING, TRIAL or ACTIVE as its status cell
      spells it, PENDING if that is empty. A cell that spells none makes the row invalid. */
  ghost predicate ToldExactly(dir: Directory, t: Table, rows: seq<StagedRow>, reverse: map<Field, string>,
                              scalars: StagedRow -> Scalars, i: nat, v: ValidatedRow)
    requires i < |rows|
  {
    && (v.errors == [] <==> Passes(dir, t, rows, reverse, scalars, i) && HasRoom(dir, t, rows, reverse, scalars, i))
    && v.number == rows[i].number && v.enrolledAt == scalars(rows[i]).enrolledAt
    && (var code := Code(rows[i], reverse, StudentCode);
        v.student == if code.Some? && code.value in dir.students then Some(dir.students[code.value].id) else None)
    && (var code := Code(rows[i], reverse, ClassCode);
        v.class_ == if code.Some? && code.value in dir.classes then Some(dir.classes[code.value].id) else None)
    && (match Text(rows[i], reverse, StatusField)
        case None => v.status == Pending
        case Some(text) =>
          && (text == "PENDING" ==> v.status == Pending) && (text == "TRIAL" ==> v.status == Trial)
          && (text == "ACTIVE" ==> v.status == Active)
          && (text !in {"PENDING", "TRIAL", "ACTIVE"} ==> v.errors != []))
  }

  lemma ValidatedExactly(dir: Directory, t: Table, mapping: Mapping, rows: seq<StagedRow>,
                         scalars: StagedRow -> Scalars, i: nat)
    requires Keyful(dir) && Numbered(rows) && i < |rows|
    ensures ToldExactly(dir, t, rows, Reverse(mapping), scalars, i, Validated(dir, t, mapping, rows, scalars)[i])
  {
    var reverse := Reverse(mapping);
    JudgedExactly(dir, t, rows, reverse, scalars, i);
    ConflictsExactly(dir, t, rows, reverse, scalars, i);
    var text := Text(rows[i], reverse, StatusField);
    assert text in {None, Some("PENDING")} ==> Spells(text, Pending);
    assert text == Some("TRIAL") ==> Spells(text, Trial);
    assert text == Some("ACTIVE") ==> Spells(text, Active);
  }

  /** A file is validated exactly when some column is mapped to the student code and some to the class
      code. */
  lemma MappedExactly(mapping: Mapping)
    ensures Mapped(Reverse(mapping))
            <==> && (exists i | 0 <= i < |mapping| :: mapping[i].1 == Some(StudentCode))
                 && (exists i | 0 <= i < |mapping| :: mapping[i].1 == Some(ClassCode))
  {
    ReverseIsLast(mapping, StudentCode);
    ReverseIsLast(mapping, ClassCode);
  }
}

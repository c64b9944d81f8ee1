/** The life of an import batch: mapping, validation, and a confirmation that writes every row
    or none, behind a savepoint. */
module ImportBatches {
  import opened Collections
  import opened JsonbOrder

  type Id = nat

  datatype BatchStatus = Uploaded | ValidatedBatch | CompletedBatch | FailedBatch | CancelledBatch
  datatype RowStatus = PendingRow | ValidRow | InvalidRow | ImportedRow | FailedRow
  datatype ImportRow = ImportRow(cells: map<string, string>, status: RowStatus, target: Option<Id>)

  /** One entry per source header, in order, with the field it is mapped to. */
  type ColumnMap<F> = seq<(string, Option<F>)>

  datatype Batch<F> = Batch(status: BatchStatus, mapping: ColumnMap<F>, rows: seq<ImportRow>, total: nat, valid: nat,
                            invalid: nat, imported: nat, failure: Option<nat>)

  /** What a row came to be: whether it is valid, and what its write would use. */
  datatype Verdict<R> = Verdict(ok: bool, item: R)
  datatype Wrote<S> = Wrote(store: S, target: Id) | Refused

  /** One import type: its fields, its validation of staged rows, and its write of one row. */
  datatype Importer<!S, !F, !R> = Importer(known: set<F>, required: set<F>,
                                          check: (S, ColumnMap<F>, seq<map<string, string>>) -> seq<Verdict<R>>,
                                          write: (S, R) -> Wrote<S>)

  datatype System<S, F> = System(store: S, batch: Batch<F>)
  datatype Reply = Done | NotAllowed | BadRequest | RowFailed(row: nat)

  /** Validation answers for each row it is given. */
  ghost predicate Answers<S(!new), F(!new), R>(im: Importer<S, F, R>) {
    forall s, m, cells :: |im.check(s, m, cells)| == |cells|
  }

  function Cells(rows: seq<ImportRow>): seq<map<string, string>> {
    Map(rows, (row: ImportRow) => row.cells)
  }

  function Count(rows: seq<ImportRow>, status: RowStatus): (n: nat)
    ensures n <= |rows|
  {
    if |rows| == 0 then 0
    else Count(rows[..|rows| - 1], status) + if rows[|rows| - 1].status == status then 1 else 0
  }

  // ---------- mapping ----------

  predicate Maps<F(==)>(mapping: ColumnMap<F>, field: F) {
    exists i | 0 <= i < |mapping| :: mapping[i].1 == Some(field)
  }

  /** What an entry list gives a header: its last entry, else nothing. */
  function Lookup<F>(entries: ColumnMap<F>, header: string): Option<F> {
    if |entries| == 0 then None
    else if entries[|entries| - 1].0 == header then entries[|entries| - 1].1
    else Lookup(entries[..|entries| - 1], header)
  }

  function Remapped<F>(mapping: ColumnMap<F>, entries: ColumnMap<F>): ColumnMap<F> {
    seq(|mapping|, i requires 0 <= i < |mapping| => (mapping[i].0, Lookup(entries, mapping[i].0)))
  }

  predicate HasHeader<F>(mapping: ColumnMap<F>, header: string) {
    exists i | 0 <= i < |mapping| :: mapping[i].0 == header
  }

  /** An entry names an unknown column or field, or a field an earlier entry named. */
  predicate BadEntry<S, F(==), R>(im: Importer<S, F, R>, mapping: ColumnMap<F>, entries: ColumnMap<F>, k: nat)
    requires k < |entries|
  {
    || !HasHeader(mapping, entries[k].0)
    || (entries[k].1.Some? && (entries[k].1.value !in im.known || Maps(entries[..k], entries[k].1.value)))
  }

  predicate EntriesBad<S, F(==), R>(im: Importer<S, F, R>, mapping: ColumnMap<F>, entries: ColumnMap<F>) {
    exists k | 0 <= k < |entries| :: BadEntry(im, mapping, entries, k)
  }

  predicate MissingRequired<S, F(==), R>(im: Importer<S, F, R>, mapping: ColumnMap<F>) {
    exists field | field in im.required :: !Maps(mapping, field)
  }

  function Fresh<F>(mapping: ColumnMap<F>, rows: seq<ImportRow>): Batch<F> {
    Batch(Uploaded, mapping, Map(rows, (row: ImportRow) => ImportRow(row.cells, PendingRow, None)), |rows|, 0, 0, 0,
          None)
  }

  /** The new mapping's text against the stored one's: both as JSON.stringify writes them, the stored
      one as jsonb gives it back. */
  predicate Changed<F(==)>(stored: ColumnMap<F>, next: ColumnMap<F>) {
    Properties(next) != Properties(Stored(stored))
  }

  function UpdateMapping<S, F(==), R>(im: Importer<S, F, R>, b: Batch<F>, entries: ColumnMap<F>): (Batch<F>, Reply) {
    var next := Remapped(b.mapping, entries);
    if b.status != Uploaded && b.status != ValidatedBatch then (b, NotAllowed)
    else if EntriesBad(im, b.mapping, entries) || MissingRequired(im, next) then (b, BadRequest)
    else if !Changed(b.mapping, next) then (b, Done)
    else (Fresh(next, b.rows), Done)
  }

  /** An accepted mapping update leaves a validated batch alone if and only if the mapping is the
      stored one and, array indices aside, the file's headers already stand in jsonb's order: shorter
      ones first, those of one length by their bytes. Otherwise even an unchanged mapping sends it
      back to UPLOADED. */
  lemma UnchangedKeptExactly<S, F(!new), R>(im: Importer<S, F, R>, b: Batch<F>, entries: ColumnMap<F>)
    requires DistinctKeys(b.mapping)
    requires b.status == ValidatedBatch && UpdateMapping(im, b, entries).1 == Done
    ensures var b' := UpdateMapping(im, b, entries).0;
            && (b' == b <==> Remapped(b.mapping, entries) == b.mapping && InJsonbOrder(b.mapping))
            && (b' != b ==> b'.status == Uploaded && b'.valid == b'.invalid == 0 && Cells(b'.rows) == Cells(b.rows))
  {
    var next := Remapped(b.mapping, entries);
    SameTextBack(b.mapping);
    if !Changed(b.mapping, next) { TextTells(next, b.mapping); }
    assert Cells(Fresh(next, b.rows).rows) == Cells(b.rows);
  }

  lemma {:induction false} LookupFound<F>(entries: ColumnMap<F>, header: string) returns (k: nat)
    requires Lookup(entries, header).Some?
    ensures k < |entries| && entries[k] == (header, Lookup(entries, header))
  {
    k := |entries| - 1;
    if entries[k].0 != header { k := LookupFound(entries[..k], header); }
  }

  lemma NamedOnce<S, F(!new), R>(im: Importer<S, F, R>, mapping: ColumnMap<F>, entries: ColumnMap<F>, p: nat, q: nat)
    requires !EntriesBad(im, mapping, entries) && p < q < |entries| && entries[p].1.Some?
    ensures entries[p].1 != entries[q].1
  {
    assert !BadEntry(im, mapping, entries, q);
    assert entries[..q][p] == entries[p];
  }

  /** A mapping that was accepted maps every required field, and no field from two columns. */
  lemma MappingUsable<S, F(!new), R>(im: Importer<S, F, R>, b: Batch<F>, entries: ColumnMap<F>)
    requires DistinctKeys(b.mapping)
    requires UpdateMapping(im, b, entries).1 == Done
    ensures var m := UpdateMapping(im, b, entries).0.mapping;
            && !MissingRequired(im, m) && |m| == |b.mapping| && (forall i | 0 <= i < |m| :: m[i].0 == b.mapping[i].0)
            && (forall i, j | 0 <= i < j < |m| && m[i].1.Some? :: m[i].1 != m[j].1)
  {
    var m := Remapped(b.mapping, entries);
    if !Changed(b.mapping, m) { TextTells(m, b.mapping); }
    forall i, j | 0 <= i < j < |m| && m[i].1.Some? ensures m[i].1 != m[j].1 {
      if m[j].1.Some? {
        var p := LookupFound(entries, m[i].0);
        var q := LookupFound(entries, m[j].0);
        if p < q { NamedOnce(im, b.mapping, entries, p, q); } else { NamedOnce(im, b.mapping, entries, q, p); }
      }
    }
  }

  // ---------- validation ----------

  function Marked<R>(rows: seq<ImportRow>, verdicts: seq<Verdict<R>>): seq<ImportRow>
    requires |verdicts| == |rows|
  {
    seq(|rows|, i requires 0 <= i < |rows| => rows[i].(status := if verdicts[i].ok then ValidRow else InvalidRow))
  }

  function Validate<S(!new), F(==,!new), R>(im: Importer<S, F, R>, s: S, b: Batch<F>): (Batch<F>, Reply)
    requires Answers(im)
  {
    if b.status != Uploaded && b.status != ValidatedBatch then (b, NotAllowed)
    else if MissingRequired(im, b.mapping) then (b, BadRequest)
    else
      var rows := Marked(b.rows, im.check(s, b.mapping, Cells(b.rows)));
      (b.(status := ValidatedBatch, rows := rows, valid := Count(rows, ValidRow),
          invalid := |rows| - Count(rows, ValidRow),
          imported := 0, failure := None), Done)
  }

  // ---------- confirmation ----------

  function FirstInvalid<R>(verdicts: seq<Verdict<R>>): (r: Option<nat>)
    ensures r.Some? ==> r.value < |verdicts| && !verdicts[r.value].ok && forall i | 0 <= i < r.value :: verdicts[i].ok
    ensures r.None? ==> forall i | 0 <= i < |verdicts| :: verdicts[i].ok
  {
    if |verdicts| == 0 then None
    else
      var n := |verdicts| - 1;
      var r := FirstInvalid(verdicts[..n]);
      if r.Some? then r else if !verdicts[n].ok then Some(n) else None
  }

  datatype Writes<S> = AllWritten(store: S, targets: seq<Id>) | FailedAt(row: nat)

  /** The write loop over the first k rows. */
  function WriteRows<S, F, R>(im: Importer<S, F, R>, s: S, verdicts: seq<Verdict<R>>, k: nat): (w: Writes<S>)
    requires k <= |verdicts|
    ensures w.AllWritten? ==> |w.targets| == k
    ensures w.FailedAt? ==> w.row < k
  {
    if k == 0 then AllWritten(s, [])
    else
      match WriteRows(im, s, verdicts, k - 1)
      case FailedAt(row) => FailedAt(row)
      case AllWritten(s', targets) =>
        match im.write(s', verdicts[k - 1].item)
        case Refused => FailedAt(k - 1)
        case Wrote(s2, target) => AllWritten(s2, targets + [target])
  }

  function Failing<F>(b: Batch<F>, row: nat): Batch<F>
    requires row < |b.rows|
  {
    b.(status := FailedBatch, rows := b.rows[row := b.rows[row].(status := FailedRow)], imported := 0,
       failure := Some(row))
  }

  function Imported(rows: seq<ImportRow>, targets: seq<Id>): seq<ImportRow>
    requires |targets| == |rows|
  {
    seq(|rows|, i requires 0 <= i < |rows| => rows[i].(status := ImportedRow, target := Some(targets[i])))
  }

  function Confirm<S(!new), F(==,!new), R>(im: Importer<S, F, R>, x: System<S, F>): (System<S, F>, Reply)
    requires Answers(im)
  {
    var b := x.batch;
    if b.status == CompletedBatch then (x, Done)
    else if b.status != ValidatedBatch || b.invalid > 0 then (x, NotAllowed)
    else if MissingRequired(im, b.mapping) then (x, BadRequest)
    else
      var verdicts := im.check(x.store, b.mapping, Cells(b.rows));
      match FirstInvalid(verdicts)
      case Some(row) => (System(x.store, Failing(b, row)), RowFailed(row))
      case None =>
        match WriteRows(im, x.store, verdicts, |verdicts|)
        case FailedAt(row) => (System(x.store, Failing(b, row)), RowFailed(row))
        case AllWritten(store, targets) =>
          (System(store, b.(status := CompletedBatch, rows := Imported(b.rows, targets), imported := |targets|)), Done)
  }

  function CancelBatch<F>(b: Batch<F>): (Batch<F>, Reply) {
    if b.status != Uploaded && b.status != ValidatedBatch then (b, NotAllowed)
    else (b.(status := CancelledBatch), Done)
  }

  // ---------- the machine ----------

  /** Outside stands for whatever other commands do to the store in between. */
  datatype Command<S, F> =
    | UpdateMappingCommand(entries: ColumnMap<F>)
    | ValidateCommand
    | ConfirmCommand
    | CancelCommand
    | Outside(store: S)

  function Answer<S(!new), F(==,!new), R>(im: Importer<S, F, R>, x: System<S, F>, c: Command<S, F>)
    : (System<S, F>, Reply)
    requires Answers(im)
  {
    match c
    case UpdateMappingCommand(entries) =>
      var (b, reply) := UpdateMapping(im, x.batch, entries);
      (x.(batch := b), reply)
    case ValidateCommand =>
      var (b, reply) := Validate(im, x.store, x.batch);
      (x.(batch := b), reply)
    case ConfirmCommand => Confirm(im, x)
    case CancelCommand =>
      var (b, reply) := CancelBatch(x.batch);
      (x.(batch := b), reply)
    case Outside(store) => (x.(store := store), Done)
  }

  function Step<S(!new), F(==,!new), R>(im: Importer<S, F, R>, x: System<S, F>, c: Command<S, F>): System<S, F>
    requires Answers(im)
  {
    Answer(im, x, c).0
  }

  // ---------- the invariant ----------

  predicate AllStatus(rows: seq<ImportRow>, status: RowStatus) {
    forall i | 0 <= i < |rows| :: rows[i].status == status
  }

  ghost predicate Checked<S(!new), F(!new), R>(im: Importer<S, F, R>, b: Batch<F>, s: S)
    requires Answers(im)
  {
    var verdicts := im.check(s, b.mapping, Cells(b.rows));
    forall i | 0 <= i < |b.rows| :: b.rows[i].status == if verdicts[i].ok then ValidRow else InvalidRow
  }

  ghost predicate Sound<S(!new), F(!new), R>(im: Importer<S, F, R>, b: Batch<F>)
    requires Answers(im)
  {
    && b.total == |b.rows|
    && (match b.status
        case Uploaded => AllStatus(b.rows, PendingRow) && b.valid == b.invalid == b.imported == 0
        case ValidatedBatch =>
          && b.valid == Count(b.rows, ValidRow) && b.valid + b.invalid == b.total && b.imported == 0
          && exists s :: Checked(im, b, s)
        case CompletedBatch =>
          && AllStatus(b.rows, ImportedRow) && (forall i | 0 <= i < |b.rows| :: b.rows[i].target.Some?)
          && b.imported == b.valid == b.total && b.invalid == 0
        case FailedBatch =>
          && b.imported == 0 && b.failure.Some? && b.failure.value < |b.rows|
          && (forall i | 0 <= i < |b.rows| :: b.rows[i].status == if i == b.failure.value then FailedRow else ValidRow)
        case CancelledBatch => b.imported == 0 && Count(b.rows, ImportedRow) == 0)
  }

  lemma {:induction false} CountNone(rows: seq<ImportRow>, status: RowStatus)
    requires forall i | 0 <= i < |rows| :: rows[i].status != status
    ensures Count(rows, status) == 0
  {
    if |rows| != 0 { CountNone(rows[..|rows| - 1], status); }
  }

  lemma {:induction false} CountFull(rows: seq<ImportRow>, status: RowStatus)
    requires Count(rows, status) == |rows|
    ensures AllStatus(rows, status)
  {
    if |rows| != 0 {
      CountFull(rows[..|rows| - 1], status);
      assert forall i | 0 <= i < |rows| - 1 :: rows[i] == rows[..|rows| - 1][i];
    }
  }

  lemma UpdateMappingSound<S(!new), F(!new), R>(im: Importer<S, F, R>, b: Batch<F>, entries: ColumnMap<F>)
    requires Answers(im) && Sound(im, b)
    ensures Sound(im, UpdateMapping(im, b, entries).0)
  {}

  lemma ValidateSound<S(!new), F(!new), R>(im: Importer<S, F, R>, s: S, b: Batch<F>)
    requires Answers(im) && Sound(im, b)
    ensures Sound(im, Validate(im, s, b).0)
  {
    var (b', reply) := Validate(im, s, b);
    if reply == Done {
      assert Cells(b'.rows) == Cells(b.rows);
      assert Checked(im, b', s);
    }
  }

  /** No row of a validated batch without invalid rows is anything but valid. */
  lemma NoneInvalid<S(!new), F(!new), R>(im: Importer<S, F, R>, b: Batch<F>)
    requires Answers(im) && Sound(im, b) && b.status == ValidatedBatch && b.invalid == 0
    ensures AllStatus(b.rows, ValidRow) && b.valid == b.total
  {
    CountFull(b.rows, ValidRow);
  }

  lemma ConfirmSound<S(!new), F(!new), R>(im: Importer<S, F, R>, x: System<S, F>)
    requires Answers(im) && Sound(im, x.batch)
    ensures Sound(im, Confirm(im, x).0.batch)
  {
    if x.batch.status == ValidatedBatch && x.batch.invalid == 0 { NoneInvalid(im, x.batch); }
  }

  lemma CancelSound<S(!new), F(!new), R>(im: Importer<S, F, R>, b: Batch<F>)
    requires Answers(im) && Sound(im, b)
    ensures Sound(im, CancelBatch(b).0)
  {
    if b.status == Uploaded || b.status == ValidatedBatch {
      forall i | 0 <= i < |b.rows| ensures b.rows[i].status != ImportedRow {
        if b.status == ValidatedBatch {
          var s :| Checked(im, b, s);
        }
      }
      CountNone(b.rows, ImportedRow);
    }
  }

  lemma StepKeepsSound<S(!new), F(!new), R>(im: Importer<S, F, R>, x: System<S, F>, c: Command<S, F>)
    requires Answers(im) && Sound(im, x.batch)
    ensures Sound(im, Step(im, x, c).batch)
  {
    match c
    case UpdateMappingCommand(entries) => UpdateMappingSound(im, x.batch, entries);
    case ValidateCommand => ValidateSound(im, x.store, x.batch);
    case ConfirmCommand => ConfirmSound(im, x);
    case CancelCommand => CancelSound(im, x.batch);
    case Outside(_) =>
  }

  predicate Final(status: BatchStatus) {
    status == CompletedBatch || status == FailedBatch || status == CancelledBatch
  }

  /** All or nothing, step by step: the store changes only in a confirmation that completes the
      batch, and then by every row's write; a final batch never changes; confirming a completed
      batch again does nothing and reports success. */
  lemma StepAllOrNothing<S(!new), F(!new), R>(im: Importer<S, F, R>, x: System<S, F>, c: Command<S, F>)
    requires Answers(im) && Sound(im, x.batch) && !c.Outside?
    ensures var x' := Step(im, x, c);
            && (x'.store != x.store ==>
                  c.ConfirmCommand? && x.batch.status == ValidatedBatch && x'.batch.status == CompletedBatch)
            && (x'.batch.status == FailedBatch ==> x'.store == x.store)
            && (Final(x.batch.status) ==> x'.batch == x.batch)
            && (x.batch.status == CompletedBatch && c.ConfirmCommand? ==> Answer(im, x, c) == (x, Done))
    ensures var x' := Step(im, x, c);
            x.batch.status != CompletedBatch && x'.batch.status == CompletedBatch ==>
              var verdicts := im.check(x.store, x.batch.mapping, Cells(x.batch.rows));
              var w := WriteRows(im, x.store, verdicts, |verdicts|);
              && (forall v | v in verdicts :: v.ok)
              && w.AllWritten? && x'.store == w.store && |w.targets| == |x'.batch.rows|
              && (forall i | 0 <= i < |w.targets| :: x'.batch.rows[i].target == Some(w.targets[i]))
  {}

  // ---------- runs ----------

  function Upload<F>(mapping: ColumnMap<F>, cells: seq<map<string, string>>): Batch<F> {
    Batch(Uploaded, mapping, Map(cells, (c: map<string, string>) => ImportRow(c, PendingRow, None)), |cells|, 0, 0, 0,
          None)
  }

  function Run<S(!new), F(==,!new), R>(im: Importer<S, F, R>, start: System<S, F>,
                                         commands: seq<Command<S, F>>): System<S, F>
    requires Answers(im)
  {
    if |commands| == 0 then start
    else Step(im, Run(im, start, commands[..|commands| - 1]), commands[|commands| - 1])
  }

  /** In every state any run of commands reaches from an upload: COMPLETED means every row is
      imported with a target and importedRows is totalRows; FAILED means importedRows is 0 and no
      row is imported; VALIDATED means validRows + invalidRows is totalRows, each row as judged
      under the current mapping. */
  lemma {:induction false} RunSound<S(!new), F(!new), R>(im: Importer<S, F, R>, store: S, mapping: ColumnMap<F>,
                                                         cells: seq<map<string, string>>, commands: seq<Command<S, F>>)
    requires Answers(im)
    ensures Sound(im, Run(im, System(store, Upload(mapping, cells)), commands).batch)
  {
    var start := System(store, Upload(mapping, cells));
    if |commands| == 0 {
      assert AllStatus(start.batch.rows, PendingRow);
    } else {
      RunSound(im, store, mapping, cells, commands[..|commands| - 1]);
      StepKeepsSound(im, Run(im, start, commands[..|commands| - 1]), commands[|commands| - 1]);
    }
  }

  lemma StepHeaders<S(!new), F(!new), R>(im: Importer<S, F, R>, x: System<S, F>, c: Command<S, F>)
    requires Answers(im) && DistinctKeys(x.batch.mapping)
    ensures DistinctKeys(Step(im, x, c).batch.mapping)
  {}

  /** The parser refuses repeated headers, and no command changes them. */
  lemma {:induction false} RunHeaders<S(!new), F(!new), R>(im: Importer<S, F, R>, start: System<S, F>,
                                                           commands: seq<Command<S, F>>)
    requires Answers(im) && DistinctKeys(start.batch.mapping)
    ensures DistinctKeys(Run(im, start, commands).batch.mapping)
  {
    if |commands| != 0 {
      RunHeaders(im, start, commands[..|commands| - 1]);
      StepHeaders(im, Run(im, start, commands[..|commands| - 1]), commands[|commands| - 1]);
    }
  }

  // ---------- all or nothing over a run ----------

  /** What the store is, given the batch that started on it: untouched, or every row's write. */
  ghost predicate AllOrNothing<S(!new), F(!new), R>(im: Importer<S, F, R>, store: S, cells: seq<map<string, string>>,
                                                    x: System<S, F>)
    requires Answers(im)
  {
    && Cells(x.batch.rows) == cells
    && if x.batch.status != CompletedBatch then x.store == store
       else
         var verdicts := im.check(store, x.batch.mapping, cells);
         var w := WriteRows(im, store, verdicts, |cells|);
         && (forall v | v in verdicts :: v.ok) && w.AllWritten? && x.store == w.store
         && (forall i | 0 <= i < |cells| :: x.batch.rows[i].target == Some(w.targets[i]))
  }

  lemma StepCells<S(!new), F(!new), R>(im: Importer<S, F, R>, x: System<S, F>, c: Command<S, F>)
    requires Answers(im)
    ensures Cells(Step(im, x, c).batch.rows) == Cells(x.batch.rows)
  {}

  lemma AllOrNothingNext<S(!new), F(!new), R>(im: Importer<S, F, R>, store: S, cells: seq<map<string, string>>,
                                              x: System<S, F>, c: Command<S, F>)
    requires Answers(im) && Sound(im, x.batch) && !c.Outside? && AllOrNothing(im, store, cells, x)
    ensures AllOrNothing(im, store, cells, Step(im, x, c))
  {
    StepCells(im, x, c);
    StepAllOrNothing(im, x, c);
  }

  /** All or nothing over every run in which nothing else writes: the store at the end is the one at
      the start unless the batch is COMPLETED, and then it is exactly what writing all rows in order,
      every one valid under the batch's mapping, makes of it, with their targets. */
  lemma {:induction false} RunAllOrNothing<S(!new), F(!new), R>(im: Importer<S, F, R>, store: S, mapping: ColumnMap<F>,
                                                                cells: seq<map<string, string>>,
                                                                commands: seq<Command<S, F>>)
    requires Answers(im) && forall c | c in commands :: !c.Outside?
    ensures AllOrNothing(im, store, cells, Run(im, System(store, Upload(mapping, cells)), commands))
  {
    var start := System(store, Upload(mapping, cells));
    if |commands| == 0 {
      assert Cells(start.batch.rows) == cells;
    } else {
      var front := commands[..|commands| - 1];
      RunAllOrNothing(im, store, mapping, cells, front);
      RunSound(im, store, mapping, cells, front);
      AllOrNothingNext(im, store, cells, Run(im, start, front), commands[|commands| - 1]);
    }
  }

  /** Once final, a batch is as it is at every later moment of the run. */
  lemma {:induction false} FinalForever<S(!new), F(!new), R>(im: Importer<S, F, R>, start: System<S, F>,
                                                             commands: seq<Command<S, F>>, k: nat)
    requires Answers(im) && k <= |commands| && Final(Run(im, start, commands[..k]).batch.status)
    ensures Run(im, start, commands).batch == Run(im, start, commands[..k]).batch
    decreases |commands|
  {
    if k == |commands| {
      assert commands[..k] == commands;
    } else {
      var front := commands[..|commands| - 1];
      assert front[..k] == commands[..k];
      FinalForever(im, start, front, k);
    }
  }

  // ---------- what each command answers ----------

  /** The last entry for a header decides; without one the header is mapped to nothing. */
  ghost predicate LastFor<F(!new)>(entries: ColumnMap<F>, header: string, target: Option<F>) {
    || (target.None? && forall k | 0 <= k < |entries| :: entries[k].0 != header)
    || exists k | 0 <= k < |entries| ::
         entries[k] == (header, target) && forall m | k < m < |entries| :: entries[m].0 != header
  }

  lemma {:induction false} LookupIsLast<F(!new)>(entries: ColumnMap<F>, header: string)
    ensures forall target :: Lookup(entries, header) == target <==> LastFor(entries, header, target)
  {
    if |entries| != 0 {
      var n := |entries| - 1;
      LookupIsLast(entries[..n], header);
      if entries[n].0 == header {
        assert entries[n] == (header, entries[n].1);
        assert LastFor(entries, header, entries[n].1);
      } else {
        forall target ensures LastFor(entries, header, target) <==> LastFor(entries[..n], header, target) {
          if k :| 0 <= k < |entries| && entries[k] == (header, target)
                  && forall m | k < m < |entries| :: entries[m].0 != header {
            assert entries[..n][k] == (header, target);
          }
          if k :| 0 <= k < n && entries[..n][k] == (header, target)
                  && forall m | k < m < n :: entries[..n][m].0 != header {
            assert entries[k] == (header, target);
            forall m | k < m < |entries| ensures entries[m].0 != header {
              if m < n { assert entries[..n][m] == entries[m]; }
            }
          }
          if forall k | 0 <= k < n :: entries[..n][k].0 != header {
            forall k | 0 <= k < |entries| ensures entries[k].0 != header {
              if k < n { assert entries[..n][k] == entries[k]; }
            }
          }
        }
      }
    }
  }

  /** The entry names a column of the file and, if any, a known field that no earlier entry names. */
  ghost predicate EntryFits<S, F(!new), R>(im: Importer<S, F, R>, mapping: ColumnMap<F>, entries: ColumnMap<F>, k: nat)
    requires k < |entries|
  {
    && (exists i | 0 <= i < |mapping| :: mapping[i].0 == entries[k].0)
    && (entries[k].1.Some? ==>
          entries[k].1.value in im.known && forall j | 0 <= j < k :: entries[j].1 != entries[k].1)
  }

  /** A mapping is accepted exactly while the batch is uploaded or validated, when every entry fits and
      afterwards every required field is the last target of some column. */
  lemma MappingAcceptedExactly<S(!new), F(!new), R>(im: Importer<S, F, R>, b: Batch<F>, entries: ColumnMap<F>)
    ensures UpdateMapping(im, b, entries).1 == Done
            <==> && b.status in {Uploaded, ValidatedBatch}
                 && (forall k: nat | k < |entries| :: EntryFits(im, b.mapping, entries, k))
                 && (forall field | field in im.required ::
                       exists i | 0 <= i < |b.mapping| :: LastFor(entries, b.mapping[i].0, Some(field)))
    ensures UpdateMapping(im, b, entries).1 == NotAllowed <==> b.status !in {Uploaded, ValidatedBatch}
  {
    EntriesExactly(im, b.mapping, entries);
    RequiredExactly(im, b.mapping, entries);
  }

  lemma EntriesExactly<S(!new), F(!new), R>(im: Importer<S, F, R>, mapping: ColumnMap<F>, entries: ColumnMap<F>)
    ensures !EntriesBad(im, mapping, entries) <==> forall k: nat | k < |entries| :: EntryFits(im, mapping, entries, k)
  {
    forall k: nat | k < |entries|
      ensures BadEntry(im, mapping, entries, k) <==> !EntryFits(im, mapping, entries, k)
    {
      assert forall j | 0 <= j < k :: entries[..k][j] == entries[j];
    }
  }

  lemma RequiredExactly<S(!new), F(!new), R>(im: Importer<S, F, R>, mapping: ColumnMap<F>, entries: ColumnMap<F>)
    ensures !MissingRequired(im, Remapped(mapping, entries))
            <==> forall field | field in im.required ::
                   exists i | 0 <= i < |mapping| :: LastFor(entries, mapping[i].0, Some(field))
  {
    forall i | 0 <= i < |mapping|
      ensures forall target :: Remapped(mapping, entries)[i].1 == target <==> LastFor(entries, mapping[i].0, target)
    {
      LookupIsLast(entries, mapping[i].0);
    }
    forall field | field in im.required
      ensures Maps(Remapped(mapping, entries), field)
              <==> exists i | 0 <= i < |mapping| :: LastFor(entries, mapping[i].0, Some(field))
    {
      if i :| 0 <= i < |mapping| && Remapped(mapping, entries)[i].1 == Some(field) {
        assert LastFor(entries, mapping[i].0, Some(field));
      }
    }
  }

  /** Validation answers while the batch is uploaded or validated and every required field is mapped: it
      marks each row by its own verdict and counts the two kinds. */
  lemma ValidationMarks<S(!new), F(!new), R>(im: Importer<S, F, R>, s: S, b: Batch<F>)
    requires Answers(im)
    ensures var (b', reply) := Validate(im, s, b);
            && (reply == Done
                <==> && b.status in {Uploaded, ValidatedBatch}
                     && forall field | field in im.required ::
                          exists i | 0 <= i < |b.mapping| :: b.mapping[i].1 == Some(field))
            && (reply != Done ==> b' == b)
            && (reply == Done ==>
                  var verdicts := im.check(s, b.mapping, Cells(b.rows));
                  && b'.status == ValidatedBatch && b'.mapping == b.mapping && |b'.rows| == |b.rows|
                  && (forall i | 0 <= i < |b.rows| ::
                        b'.rows[i] == b.rows[i].(status := if verdicts[i].ok then ValidRow else InvalidRow))
                  && b'.valid == |set i: nat | i < |b.rows| && verdicts[i].ok|
                  && b'.valid + b'.invalid == |b.rows|)
  {
    var (b', reply) := Validate(im, s, b);
    if reply == Done {
      var verdicts := im.check(s, b.mapping, Cells(b.rows));
      Counted(b'.rows, ValidRow, |b.rows|);
      assert b'.rows[..|b.rows|] == b'.rows;
      assert (set i: nat | i < |b.rows| && b'.rows[i].status == ValidRow)
          == (set i: nat | i < |b.rows| && verdicts[i].ok);
    }
  }

  lemma {:induction false} Counted(rows: seq<ImportRow>, status: RowStatus, k: nat)
    requires k <= |rows|
    ensures Count(rows[..k], status) == |set i: nat | i < k && rows[i].status == status|
  {
    if k != 0 {
      Counted(rows, status, k - 1);
      assert rows[..k][..k - 1] == rows[..k - 1];
      var before, after := set i: nat | i < k - 1 && rows[i].status == status,
        set i: nat | i < k && rows[i].status == status;
      if k - 1 in after { assert after == before + {k - 1}; } else { assert after == before; }
    }
  }

  /** A confirmation completes exactly from a validated batch without an invalid row, when every required
      field is mapped, every row is valid again, and every row is written. */
  lemma CompletedExactly<S(!new), F(!new), R>(im: Importer<S, F, R>, x: System<S, F>)
    requires Answers(im) && x.batch.status != CompletedBatch
    ensures var b, verdicts := x.batch, im.check(x.store, x.batch.mapping, Cells(x.batch.rows));
            Confirm(im, x).0.batch.status == CompletedBatch
            <==> && b.status == ValidatedBatch && b.invalid == 0
                 && (forall field | field in im.required ::
                       exists i | 0 <= i < |b.mapping| :: b.mapping[i].1 == Some(field))
                 && (forall i | 0 <= i < |verdicts| :: verdicts[i].ok)
                 && WriteRows(im, x.store, verdicts, |verdicts|).AllWritten?
  {}

  /** What it leaves is what writing every row leaves, with each row's target. */
  lemma CompletionWrites<S(!new), F(!new), R>(im: Importer<S, F, R>, x: System<S, F>)
    requires Answers(im) && x.batch.status != CompletedBatch && Confirm(im, x).0.batch.status == CompletedBatch
    ensures var x', verdicts := Confirm(im, x).0, im.check(x.store, x.batch.mapping, Cells(x.batch.rows));
            var w := WriteRows(im, x.store, verdicts, |verdicts|);
            && (forall i | 0 <= i < |verdicts| :: verdicts[i].ok) && |verdicts| == |x.batch.rows|
            && w.AllWritten? && x'.store == w.store && x'.batch.rows == Imported(x.batch.rows, w.targets)
  {
    CompletedExactly(im, x);
  }

  /** A batch is cancelled exactly while it is uploaded or validated; its rows stay as they are. */
  lemma CancelledExactly<F(!new)>(b: Batch<F>)
    ensures CancelBatch(b).1 == Done <==> b.status in {Uploaded, ValidatedBatch}
    ensures CancelBatch(b).0 == if b.status in {Uploaded, ValidatedBatch} then b.(status := CancelledBatch) else b
  {}
}

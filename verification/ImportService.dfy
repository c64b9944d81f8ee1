/** The import service: row and batch tables updated in place, a savepoint before the writes. */
module ImportServices {
  import opened Collections
  import opened ImportBatches

  class ImportService<S(!new), F(==,!new), R> {
    var store: S
    var batch: Batch<F>
    const im: Importer<S, F, R>

    constructor (im: Importer<S, F, R>, store: S, mapping: ColumnMap<F>, cells: seq<map<string, string>>)
      ensures this.im == im && Contents() == System(store, Upload(mapping, cells))
    {
      this.im := im;
      this.store := store;
      batch := Upload(mapping, cells);
    }

    function Contents(): System<S, F>
      reads this
    {
      System(store, batch)
    }

    /** The entries are checked one by one while the new mapping is filled in. */
    method ChangeMapping(entries: ColumnMap<F>) returns (reply: Reply)
      requires Answers(im)
      modifies this`batch
      ensures (Contents(), reply) == Answer(im, old(Contents()), UpdateMappingCommand(entries))
    {
      if batch.status != Uploaded && batch.status != ValidatedBatch { return NotAllowed; }
      var given: map<string, Option<F>> := map[];
      var used: set<F> := {};
      for k := 0 to |entries|
        invariant batch == old(batch) && store == old(store)
        invariant forall j | 0 <= j < k :: !BadEntry(im, batch.mapping, entries, j)
        invariant forall field :: field in used <==> Maps(entries[..k], field)
        invariant forall header :: (if header in given then given[header] else None) == Lookup(entries[..k], header)
      {
        var (header, target) := entries[k];
        assert entries[..k + 1] == entries[..k] + [entries[k]];
        assert entries[..k + 1][..k] == entries[..k];
        if !HasHeader(batch.mapping, header) || (target.Some? && (target.value !in im.known || target.value in used)) {
          assert BadEntry(im, batch.mapping, entries, k);
          return BadRequest;
        }
        if target.Some? { used := used + {target.value}; }
        MapsSnoc(entries[..k], entries[k]);
        given := given[header := target];
      }
      assert entries[..|entries|] == entries;
      var next := seq(|batch.mapping|, i requires 0 <= i < |batch.mapping| reads this =>
                        (batch.mapping[i].0, if batch.mapping[i].0 in given then given[batch.mapping[i].0] else None));
      assert next == Remapped(batch.mapping, entries);
      if MissingRequired(im, next) { return BadRequest; }
      if Changed(batch.mapping, next) { batch := Fresh(next, batch.rows); }
      reply := Done;
    }

    /** Stores each row's verdict, counting the valid ones. */
    method MarkRows(before: seq<ImportRow>, verdicts: seq<Verdict<R>>) returns (rows: seq<ImportRow>, valid: nat)
      requires |verdicts| == |before|
      ensures rows == Marked(before, verdicts) && valid == Count(rows, ValidRow)
    {
      rows, valid := before, 0;
      for i := 0 to |verdicts|
        invariant |rows| == |verdicts|
        invariant forall j | 0 <= j < |rows| :: rows[j] == if j < i then Marked(before, verdicts)[j] else before[j]
        invariant valid == Count(Marked(before, verdicts)[..i], ValidRow)
      {
        assert Marked(before, verdicts)[..i + 1][..i] == Marked(before, verdicts)[..i];
        rows := rows[i := rows[i].(status := if verdicts[i].ok then ValidRow else InvalidRow)];
        if verdicts[i].ok { valid := valid + 1; }
      }
      assert rows == Marked(before, verdicts) && rows[..|rows|] == rows;
    }

    method ValidateBatch() returns (reply: Reply)
      requires Answers(im)
      modifies this`batch
      ensures (Contents(), reply) == Answer(im, old(Contents()), ValidateCommand)
    {
      if batch.status != Uploaded && batch.status != ValidatedBatch { return NotAllowed; }
      if MissingRequired(im, batch.mapping) { return BadRequest; }
      var verdicts := im.check(store, batch.mapping, Cells(batch.rows));
      var rows, valid := MarkRows(batch.rows, verdicts);
      batch := batch.(rows := rows);
      batch := batch.(status := ValidatedBatch, valid := valid, invalid := |rows| - valid, imported := 0,
                      failure := None);
      reply := Done;
    }

    /** failBatch */
    method Fail(row: nat)
      requires row < |batch.rows|
      modifies this`batch
      ensures batch == Failing(old(batch), row)
    {
      batch := batch.(rows := batch.rows[row := batch.rows[row].(status := FailedRow)]);
      batch := batch.(status := FailedBatch, imported := 0, failure := Some(row));
    }

    /** Writes row by row into the store, and rolls back to the savepoint on the first refusal. */
    method ConfirmBatch() returns (reply: Reply)
      requires Answers(im)
      modifies this
      ensures (Contents(), reply) == Answer(im, old(Contents()), ConfirmCommand)
    {
      if batch.status == CompletedBatch { return Done; }
      if batch.status != ValidatedBatch { return NotAllowed; }
      if batch.invalid > 0 { return NotAllowed; }
      if MissingRequired(im, batch.mapping) { return BadRequest; }
      var verdicts := im.check(store, batch.mapping, Cells(batch.rows));
      var invalid := FirstInvalid(verdicts);
      if invalid.Some? {
        Fail(invalid.value);
        return RowFailed(invalid.value);
      }
      var savepoint := store;
      var imported: seq<Id> := [];
      for k := 0 to |verdicts|
        invariant batch == old(batch) && savepoint == old(store)
        invariant WriteRows(im, savepoint, verdicts, k) == AllWritten(store, imported)
      {
        var wrote := im.write(store, verdicts[k].item);
        if wrote.Refused? {
          FailureStays(im, savepoint, verdicts, k + 1, |verdicts|);
          store := savepoint;
          Fail(k);
          return RowFailed(k);
        }
        store := wrote.store;
        imported := imported + [wrote.target];
      }
      batch := batch.(rows := Imported(batch.rows, imported));
      batch := batch.(status := CompletedBatch, imported := |imported|);
      reply := Done;
    }

    method Cancel() returns (reply: Reply)
      requires Answers(im)
      modifies this`batch
      ensures (Contents(), reply) == Answer(im, old(Contents()), CancelCommand)
    {
      if batch.status != Uploaded && batch.status != ValidatedBatch { return NotAllowed; }
      batch := batch.(status := CancelledBatch);
      reply := Done;
    }
  }

  lemma MapsSnoc<F(!new)>(entries: ColumnMap<F>, e: (string, Option<F>))
    ensures forall field :: Maps(entries + [e], field) <==> Maps(entries, field) || e.1 == Some(field)
  {
    forall field ensures Maps(entries + [e], field) <==> Maps(entries, field) || e.1 == Some(field) {
      assert (entries + [e])[|entries|] == e;
      if Maps(entries, field) {
        var i :| 0 <= i < |entries| && entries[i].1 == Some(field);
        assert (entries + [e])[i].1 == Some(field);
      }
    }
  }

  /** A refused row is where the whole loop stops. */
  lemma {:induction false} FailureStays<S, F, R>(im: Importer<S, F, R>, s: S, verdicts: seq<Verdict<R>>, k: nat, m: nat)
    requires k <= m <= |verdicts| && WriteRows(im, s, verdicts, k).FailedAt?
    ensures WriteRows(im, s, verdicts, m) == WriteRows(im, s, verdicts, k)
  {
    if k < m { FailureStays(im, s, verdicts, k, m - 1); }
  }
}

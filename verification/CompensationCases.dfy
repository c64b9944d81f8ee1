/** Single inputs on which generation is refused by the database or fails its recheck. */
module CompensationCases {
  import opened Collections
  import opened Ordering
  import opened Compensation
  import opened CompensationRecheck
  import opened CompensationGuards
  import opened CompensationPeriods

  const January := Dates(0, 30)
  const NoClaims := Claims({}, {})
  const Opening := Period(January, Draft, false, [], [], [], [])

  // ---------- a fixed-class agreement that ended before its class completed ----------

  const Ended := Agreement(1, 7, Some(3), FixedClass, 500, 0, Some(5))
  const EndedEarly := Sources([], [Ended], map[3 := 10])

  /** The agreement overlaps the period, and its class completes in it, after the agreement's end:
      generation pays it, and the insert trigger refuses the item. */
  lemma EndedEarlyRefused()
    ensures Tables(EndedEarly) && FixedDue(EndedEarly, January, Ended) && !Covers(EndedEarly, Ended)
    ensures Generate(Opening, EndedEarly, NoClaims) == Refused(ConstraintFailed)
  {
    assert Worked(EndedEarly, January) == [];
    assert Ended in EndedEarly.agreements && FixedRefused(EndedEarly, January, NoClaims, Ended);
    RefusedExactly(EndedEarly, January, NoClaims);
  }

  // ---------- one session under one agreement ----------

  function OneSessionOf(w: Session, a: Agreement): Sources {
    Sources([w], [a], map[])
  }

  lemma SingleChoice(w: Session, a: Agreement, p: Dates)
    requires Payable(p, w) && Applies(a, w)
    ensures AgreementFor(OneSessionOf(w, a), p, w) == Some(a)
  {
    assert Filter([a], Overlapping(p)) == [a];
    assert Sort([a], ListOrder) == [a];
  }

  lemma SingleWorked(w: Session, a: Agreement, p: Dates)
    requires Payable(p, w)
    ensures Worked(OneSessionOf(w, a), p) == [w]
  {
    assert Filter([w], InPeriod(p)) == [w];
  }

  // ---------- half a dong ----------

  const Short := Session(1, Some(7), 3, 4, 36000, 37740, true)
  const Cheap := Agreement(1, 7, None, PerHour, 1, 0, None)

  /** Twenty-nine minutes at one dong an hour round to nothing, which the column check refuses. */
  lemma HalfDongRefused()
    ensures var src := OneSessionOf(Short, Cheap);
            Tables(src) && CutMinutes(Short) == 29 && Generate(Opening, src, NoClaims) == Refused(ConstraintFailed)
  {
    var src := OneSessionOf(Short, Cheap);
    SingleChoice(Short, Cheap, January);
    SingleWorked(Short, Cheap, January);
    assert Short in src.sessions && SessionRefused(src, January, NoClaims, Short);
    RefusedExactly(src, January, NoClaims);
  }

  // ---------- seconds, which the column type allows and no service writes ----------

  const Skewed := Session(1, Some(7), 3, 4, 36000, 39645, true)
  const Plain := Agreement(1, 7, None, PerSession, 100, 0, None)

  /** An hour and forty-five seconds is sixty minutes to generation and sixty-one to the recheck: the
      period is generated and does not pass. */
  lemma SkewedNotCanonical()
    ensures var src := OneSessionOf(Skewed, Plain);
            && Tables(src) && !Aligned(Skewed) && CutMinutes(Skewed) == 60 && RoundedMinutes(Skewed) == 61
            && Generate(Opening, src, NoClaims).Done? && !Canonical(Generate(Opening, src, NoClaims).period, src)
  {
    var src := OneSessionOf(Skewed, Plain);
    SkewedGenerated(src);
    assert Skewed in src.sessions && !AllAligned(src, January);
    GeneratedIsCanonical(Opening, src, NoClaims, Generate(Opening, src, NoClaims).period);
  }

  lemma SkewedGenerated(src: Sources)
    requires src == OneSessionOf(Skewed, Plain)
    ensures Tables(src) && Payable(January, Skewed) && Paid(src, January, Skewed)
            && !RowsRefused(src, January, NoClaims)
    ensures !TooShort(src, January)
  {
    SingleChoice(Skewed, Plain, January);
    SingleWorked(Skewed, Plain, January);
    RefusedExactly(src, January, NoClaims);
  }
}

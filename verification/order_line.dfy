/**
 The sale order line's side of the host's amount computation. The host
 computes a line's totals from the single `discount` field, so around that
 computation every line of the recordset is given a working value
 (`discount` := combined discount, `discount2` := `discount3` := 0), and the
 values the user entered are put back afterwards from a snapshot.

 The record cache is a map from line id to line; a recordset is the sequence
 of line ids it iterates over (an id may occur more than once).
 */
module SaleOrderLine {
  import opened TripleDiscount

  type LineId = nat

  /** What preprocess saves of each line: its three stored discount fields. */
  type Snapshot = map<LineId, Discounts>

  type Table = map<LineId, OrderLine>

  /** The check constraints `discount2_limit` and `discount3_limit`. An unset
      field passes, as a database CHECK does on NULL; no lower bound is set,
      and `discount` is left to the host. */
  predicate WithinLimits(d: Discounts) {
    && (d.discount2.Set? ==> d.discount2.pct <= 100.0)
    && (d.discount3.Set? ==> d.discount3.pct <= 100.0)
  }

  /** The line as the host's amount computation sees it: the combined
      discount in `discount`, nothing in the other two fields. */
  function WorkingLine(line: OrderLine): (w: OrderLine)
    requires KnownMode(line.mode)
    ensures w.mode == line.mode
    ensures w.discounts.discount == Set(FinalDiscount(line).value)
    ensures FinalDiscount(w) == FinalDiscount(line)
    ensures PercentOf(w.discounts.discount2) == PercentOf(w.discounts.discount3) == 0.0
    ensures WithinLimits(w.discounts)
  {
    FinalDiscountStable(line);
    line.(discounts := Discounts(Set(FinalDiscount(line).value), Set(0.0), Set(0.0)))
  }

  /** Preparing a line a second time changes nothing: the combined discount
      of an already prepared line is its own `discount`. */
  lemma WorkingLineIdempotent(line: OrderLine)
    requires KnownMode(line.mode)
    ensures WorkingLine(WorkingLine(line)) == WorkingLine(line)
  {
  }

  /** Preprocessing the same recordset a second time leaves the table as the
      first pass left it. */
  lemma WorkingIdempotent(t: Table, ids: seq<LineId>)
    requires InTable(t, ids) && AllKnown(t, ids)
    ensures InTable(Working(t, ids), ids) && AllKnown(Working(t, ids), ids)
    ensures Working(Working(t, ids), ids) == Working(t, ids)
  {
    forall id | id in ids
      ensures WorkingLine(WorkingLine(t[id])) == WorkingLine(t[id])
    {
      WorkingLineIdempotent(t[id]);
    }
  }

  ghost predicate InTable(t: Table, ids: seq<LineId>) {
    forall id | id in ids :: id in t
  }

  ghost predicate AllKnown(t: Table, ids: seq<LineId>)
    requires InTable(t, ids)
  {
    forall id | id in ids :: KnownMode(t[id].mode)
  }

  /** `id` occurs at two different positions of `ids`. */
  ghost predicate Repeated(ids: seq<LineId>, id: LineId) {
    exists i, j :: 0 <= i < j < |ids| && ids[i] == id && ids[j] == id
  }

  ghost predicate NoRepeats(ids: seq<LineId>) {
    forall i, j :: 0 <= i < j < |ids| ==> ids[i] != ids[j]
  }

  /** The table after preprocessing the lines `ids`: each of them holds its
      working value, every other line is as it was. */
  ghost function Working(t: Table, ids: seq<LineId>): (w: Table)
    requires InTable(t, ids) && AllKnown(t, ids)
    ensures w.Keys == t.Keys
    ensures forall id | id in t && id !in ids :: w[id] == t[id]
    ensures forall id | id in ids :: w[id].discounts.discount == Set(FinalDiscount(t[id]).value)
    ensures forall id | id in ids :: FinalDiscount(w[id]) == FinalDiscount(t[id])
    ensures forall id | id in ids :: PercentOf(w[id].discounts.discount2) == PercentOf(w[id].discounts.discount3) == 0.0
  {
    map id | id in t :: if id in ids then WorkingLine(t[id]) else t[id]
  }

  /** The snapshot preprocessing the lines `ids` returns. Each line's entry
      holds what the line held when it was last visited: its stored fields,
      or its working value when it had been visited before. */
  ghost function PreprocessSnapshot(t: Table, ids: seq<LineId>): (s: Snapshot)
    requires InTable(t, ids) && AllKnown(t, ids)
    ensures s.Keys == set id | id in ids
    ensures NoRepeats(ids) ==> forall id | id in s :: s[id] == t[id].discounts
  {
    map id | id in ids :: if Repeated(ids, id) then WorkingLine(t[id]).discounts else t[id].discounts
  }

  /** The table after writing every snapshot entry back into its line. */
  ghost function Restored(t: Table, prev: Snapshot): (r: Table)
    requires prev.Keys <= t.Keys
    ensures r.Keys == t.Keys
    ensures forall id | id in prev :: r[id].discounts == prev[id] && r[id].mode == t[id].mode
    ensures forall id | id in t && id !in prev :: r[id] == t[id]
  {
    map id | id in t :: if id in prev then t[id].(discounts := prev[id]) else t[id]
  }

  lemma RepeatedExtend(s: seq<LineId>, x: LineId, y: LineId)
    ensures Repeated(s + [x], y) <==> Repeated(s, y) || (y == x && y in s)
  {
    var s' := s + [x];
    if Repeated(s', y) {
      var i, j :| 0 <= i < j < |s'| && s'[i] == y && s'[j] == y;
      if j < |s| {
        assert s[i] == y && s[j] == y;
      } else {
        assert s[i] == y;
      }
    }
    if Repeated(s, y) {
      var i, j :| 0 <= i < j < |s| && s[i] == y && s[j] == y;
      assert s'[i] == y && s'[j] == y;
    }
    if y == x && y in s {
      var i :| 0 <= i < |s| && s[i] == y;
      assert s'[i] == y && s'[|s|] == y;
    }
  }

  /** One more line preprocessed: only that line changes, to the working value
      of what it holds now, which is its own working value also when the line
      has been visited before. */
  lemma WorkingStep(t: Table, s: seq<LineId>, x: LineId)
    requires InTable(t, s + [x]) && AllKnown(t, s + [x])
    ensures InTable(t, s) && AllKnown(t, s)
    ensures Working(t, s + [x]) == Working(t, s)[x := WorkingLine(Working(t, s)[x])]
  {
  }

  /** One more line preprocessed: the snapshot gains that line's current fields. */
  lemma SnapshotStep(t: Table, s: seq<LineId>, x: LineId)
    requires InTable(t, s + [x]) && AllKnown(t, s + [x])
    ensures InTable(t, s) && AllKnown(t, s)
    ensures PreprocessSnapshot(t, s + [x]) == PreprocessSnapshot(t, s)[x := Working(t, s)[x].discounts]
  {
    forall y | y in s + [x]
      ensures Repeated(s + [x], y) <==> Repeated(s, y) || (y == x && y in s)
    {
      RepeatedExtend(s, x, y);
    }
    forall y | y in s
      ensures Repeated(s, y) ==> y in s
    {
    }
    assert forall id :: id in s + [x] <==> id in s || id == x;
  }

  /** Postprocess undoes preprocess: writing the snapshot back into the
      prepared table gives the original table, when no line is listed twice. */
  lemma RoundTrip(t: Table, ids: seq<LineId>)
    requires InTable(t, ids) && AllKnown(t, ids)
    requires NoRepeats(ids)
    ensures Restored(Working(t, ids), PreprocessSnapshot(t, ids)) == t
  {
  }

  /** Any line a recordset lists twice ends the round trip holding its
      working value rather than its stored fields. */
  lemma RepeatedLineKeepsWorkingValue(t: Table, ids: seq<LineId>, id: LineId)
    requires InTable(t, ids) && AllKnown(t, ids)
    requires Repeated(ids, id)
    ensures Restored(Working(t, ids), PreprocessSnapshot(t, ids))[id] == WorkingLine(t[id])
  {
    var i, j :| 0 <= i < j < |ids| && ids[i] == id && ids[j] == id;
    assert id in ids;
  }

  /** An instance where the working value differs from the stored fields, so
      a line listed twice loses its stored discounts: (10, 20, unset) comes
      back as (30, 0, 0). */
  lemma RepeatedLineNotRestored()
    ensures var t := map[7 := OrderLine(Discounts(Set(10.0), Set(20.0), Unset), Additive)];
      && InTable(t, [7, 7]) && AllKnown(t, [7, 7])
      && Restored(Working(t, [7, 7]), PreprocessSnapshot(t, [7, 7]))[7].discounts
         == Discounts(Set(30.0), Set(0.0), Set(0.0))
  {
    var t := map[7 := OrderLine(Discounts(Set(10.0), Set(20.0), Unset), Additive)];
    var ids: seq<LineId> := [7, 7];
    assert Repeated(ids, 7) by { assert ids[0] == 7 && ids[1] == 7; }
  }

  /** Amounts computed from the prepared table are those of each line's working value. */
  lemma HostSeesWorkingLines(t: Table, ids: seq<LineId>, host: OrderLine -> real)
    requires InTable(t, ids) && AllKnown(t, ids)
    ensures (map id | id in ids :: host(Working(t, ids)[id])) == (map id | id in ids :: host(WorkingLine(t[id])))
  {
  }

  /** Every snapshot entry of a table that meets the check constraints meets them too. */
  lemma SnapshotWithinLimits(t: Table, ids: seq<LineId>)
    requires InTable(t, ids) && AllKnown(t, ids)
    requires forall id | id in t :: WithinLimits(t[id].discounts)
    ensures forall id | id in PreprocessSnapshot(t, ids) :: WithinLimits(PreprocessSnapshot(t, ids)[id])
  {
  }

  /** The order lines held in the record cache, with the amounts the host
      computes for them. */
  class SaleOrderLines {
    var lines: Table
    var amounts: map<LineId, real>

    /** The stored lines meet the check constraints. */
    ghost predicate Valid()
      reads this
    {
      forall id | id in lines :: WithinLimits(lines[id].discounts)
    }

    constructor (initial: Table)
      requires forall id | id in initial :: WithinLimits(initial[id].discounts)
      ensures lines == initial && amounts == map[]
      ensures Valid()
    {
      lines := initial;
      amounts := map[];
    }

    /** Saves the discount fields of every line of `recs` and gives each its
        working value, in recordset order. A line with an unknown discounting
        type stops the loop with an error; the lines before it stay prepared. */
    method Preprocess(recs: seq<LineId>) returns (r: Result<Snapshot>)
      requires InTable(lines, recs)
      modifies this`lines
      ensures r.Success? <==> AllKnown(old(lines), recs)
      ensures r.Success? ==> lines == Working(old(lines), recs)
      ensures r.Success? ==> r.value == PreprocessSnapshot(old(lines), recs)
      ensures r.Failure? ==> exists k :: (
        && 0 <= k < |recs|
        && InTable(old(lines), recs[..k]) && AllKnown(old(lines), recs[..k])
        && !KnownMode(old(lines)[recs[k]].mode)
        && r.error == UnknownDiscountingType(old(lines)[recs[k]].mode)
        && lines == Working(old(lines), recs[..k]))
      ensures old(Valid()) ==> Valid()
    {
      ghost var t0 := lines;
      var prev: Snapshot := map[];
      for i := 0 to |recs|
        invariant InTable(t0, recs[..i]) && AllKnown(t0, recs[..i])
        invariant lines == Working(t0, recs[..i])
        invariant prev == PreprocessSnapshot(t0, recs[..i])
        invariant old(Valid()) ==> Valid()
      {
        assert recs[..i + 1] == recs[..i] + [recs[i]];
        var id := recs[i];
        var line := lines[id];
        prev := prev[id := line.discounts];
        var combined := FinalDiscount(line);
        if combined.Failure? {
          return Failure(combined.error);
        }
        lines := lines[id := line.(discounts := Discounts(Set(combined.value), Set(0.0), Set(0.0)))];
        WorkingStep(t0, recs[..i], id);
        SnapshotStep(t0, recs[..i], id);
      }
      assert recs[..|recs|] == recs;
      return Success(prev);
    }

    /** Writes every entry of the snapshot back into its line. */
    method Postprocess(prev: Snapshot)
      requires prev.Keys <= lines.Keys
      modifies this`lines
      ensures lines == Restored(old(lines), prev)
      ensures old(Valid()) && (forall id | id in prev :: WithinLimits(prev[id])) ==> Valid()
    {
      ghost var t0 := lines;
      var todo := prev.Keys;
      while todo != {}
        invariant todo <= prev.Keys
        invariant lines == Restored(t0, prev - todo)
        decreases todo
      {
        var id :| id in todo;
        lines := lines[id := lines[id].(discounts := prev[id])];
        todo := todo - {id};
      }
      assert prev - {} == prev;
    }

    /** The host's amount computation, which sets each line's amount from the
        line as it stands now; `host` stands for the host's per-line formula. */
    method HostComputeAmount(recs: seq<LineId>, host: OrderLine -> real)
      requires InTable(lines, recs)
      modifies this`amounts
      ensures amounts == old(amounts) + map id | id in recs :: host(lines[id])
    {
      for i := 0 to |recs|
        invariant amounts == old(amounts) + map id | id in recs[..i] :: host(lines[id])
      {
        assert recs[..i + 1] == recs[..i] + [recs[i]];
        amounts := amounts[recs[i] := host(lines[recs[i]])];
      }
      assert recs[..|recs|] == recs;
    }

    /** The amount computation bracketed by preprocess and postprocess: the
        host computes each amount from the line's working value, and the
        lines end as they started. */
    method ComputeAmount(recs: seq<LineId>, host: OrderLine -> real) returns (r: Result<()>)
      requires InTable(lines, recs)
      modifies this
      ensures r.Success? <==> AllKnown(old(lines), recs)
      ensures r.Success? ==> amounts == old(amounts) + map id | id in recs :: host(WorkingLine(old(lines)[id]))
      ensures r.Success? ==> lines == Restored(Working(old(lines), recs), PreprocessSnapshot(old(lines), recs))
      ensures r.Success? && NoRepeats(recs) ==> lines == old(lines)
      ensures r.Failure? ==> amounts == old(amounts)
      ensures r.Failure? ==> exists k :: (
        && 0 <= k < |recs|
        && InTable(old(lines), recs[..k]) && AllKnown(old(lines), recs[..k])
        && !KnownMode(old(lines)[recs[k]].mode)
        && r.error == UnknownDiscountingType(old(lines)[recs[k]].mode)
        && lines == Working(old(lines), recs[..k]))
      ensures old(Valid()) ==> Valid()
    {
      ghost var t0 := lines;
      var prev := Preprocess(recs);
      if prev.Failure? {
        return Failure(prev.error);
      }
      HostComputeAmount(recs, host);
      HostSeesWorkingLines(t0, recs, host);
      if old(Valid()) {
        SnapshotWithinLimits(t0, recs);
      }
      Postprocess(prev.value);
      if NoRepeats(recs) {
        RoundTrip(t0, recs);
      }
      return Success(());
    }
  }

  /** The check constraints together with the host's limit on `discount` keep
      a stored line's multiplicative discount at most 100. */
  lemma ValidBoundsMultiplicative(c: SaleOrderLines, id: LineId)
    requires c.Valid() && id in c.lines
    requires c.lines[id].mode == Multiplicative
    requires PercentOf(c.lines[id].discounts.discount) <= 100.0
    ensures FinalDiscount(c.lines[id]).Success?
    ensures FinalDiscount(c.lines[id]).value <= 100.0
  {
    MultiplicativeAtMostHundred(c.lines[id].discounts);
  }

  /** A value of the invoice-line mapping: a discount field, or anything the
      host put there. */
  datatype InvoiceValue<H> = Percentage(field: Field) | HostValue(value: H)

  /** The invoice-line values of a line: the host's mapping, with `discount2`
      and `discount3` set to the line's stored fields. */
  function PrepareInvoiceLine<H>(hostVals: map<string, InvoiceValue<H>>, line: OrderLine): (r: map<string, InvoiceValue<H>>)
    ensures r.Keys == hostVals.Keys + {"discount2", "discount3"}
    ensures r["discount2"] == Percentage(line.discounts.discount2)
    ensures r["discount3"] == Percentage(line.discounts.discount3)
    ensures forall k | k in hostVals && k != "discount2" && k != "discount3" :: r[k] == hostVals[k]
  {
    hostVals["discount2" := Percentage(line.discounts.discount2)]["discount3" := Percentage(line.discounts.discount3)]
  }

  /** The invoice-line values do not depend on the discounting type. */
  lemma InvoiceLineIgnoresMode<H>(hostVals: map<string, InvoiceValue<H>>, line: OrderLine, mode: string)
    ensures PrepareInvoiceLine(hostVals, line) == PrepareInvoiceLine(hostVals, line.(mode := mode))
  {
  }
}

/**
 The trigger in the merchant's database that keeps an erased order erased, whoever writes
 to it afterwards.
 */
module ErasureGuard {
  datatype Column =
    | CustomerId | FirstName | LastName | ShippingCountry
    | LogisticsCost | RedactedAt
    | Other(name: string)

  datatype Cell = Null | Value(text: string)

  /** A row has a cell for every column of the table. */
  type Row = map<Column, Cell>

  const CLEARED := [CustomerId, FirstName, LastName, ShippingCountry]

  predicate IsOrder(r: Row) {
    && RedactedAt in r && LogisticsCost in r
    && CustomerId in r && FirstName in r && LastName in r && ShippingCountry in r
  }

  predicate Marked(r: Row)
    requires IsOrder(r)
  {
    !r[RedactedAt].Null?
  }

  /** Two versions of one row have the same columns. */
  ghost predicate Versions(a: Row, b: Row) {
    IsOrder(a) && IsOrder(b) && a.Keys == b.Keys
  }

  // --- What one update leaves ------------------------------------------------------

  /** What the erasure empties: who the customer is, and where they are. */
  ghost predicate Personal(c: Column) {
    c == CustomerId || c == FirstName || c == LastName || c == ShippingCountry
  }

  lemma ClearedIsPersonal(c: Column)
    ensures c in CLEARED <==> Personal(c)
  {
    assert CLEARED[0] == CustomerId && CLEARED[1] == FirstName && CLEARED[2] == LastName && CLEARED[3] == ShippingCountry;
  }

  /** The law: what may be in the row after an update that wrote `written` over `before`. */
  ghost predicate Lawful(before: Row, written: Row, after: Row)
    requires Versions(before, written)
  {
    && after.Keys == written.Keys
    && (!Marked(before) ==> after == written)
    && (Marked(before) ==>
         && after[RedactedAt] == before[RedactedAt]
         && (forall c | c in written && Personal(c) :: after[c].Null?)
         && after[LogisticsCost] == (if written[ShippingCountry].Null? then before else written)[LogisticsCost]
         && forall c | c in written && !Personal(c) && c != RedactedAt && c != LogisticsCost :: after[c] == written[c])
  }

  function Guarded(before: Row, written: Row): Row
    requires Versions(before, written)
  {
    if !Marked(before) then written
    else
      map c | c in written ::
        if c in CLEARED then Null
        else if c == RedactedAt || (c == LogisticsCost && written[ShippingCountry].Null?) then before[c]
        else written[c]
  }

  /** The law leaves exactly one outcome. */
  lemma LawHasOneOutcome(before: Row, written: Row, after: Row)
    requires Versions(before, written)
    ensures Lawful(before, written, after) <==> after == Guarded(before, written)
  {
    forall c ensures c in CLEARED <==> Personal(c) {
      ClearedIsPersonal(c);
    }
    hide CLEARED, Personal;
    var g := Guarded(before, written);
    if Lawful(before, written, after) {
      assert forall c | c in written :: after[c] == g[c];
    }
  }

  /** The row about to be written, which the trigger changes in place. */
  class NewRow {
    var cells: map<Column, Cell>

    constructor (written: Row)
      ensures cells == written
    {
      cells := written;
    }

    /** The trigger: what it leaves to be written is what the law allows. */
    method BeforeUpdate(before: Row)
      requires Versions(before, cells)
      modifies this
      ensures Lawful(before, old(cells), cells)
    {
      if before[RedactedAt] != Null {
        if cells[ShippingCountry] == Null {
          cells := cells[LogisticsCost := before[LogisticsCost]];
        }
        ClearPersonal();
        cells := cells[RedactedAt := before[RedactedAt]];
      }
    }

    method ClearPersonal()
      requires IsOrder(cells)
      modifies this
      ensures cells == map c | c in old(cells) :: if Personal(c) then Null else old(cells)[c]
    {
      for i := 0 to |CLEARED|
        invariant cells.Keys == old(cells).Keys
        invariant forall c | c in cells :: cells[c] == if c in CLEARED[..i] then Null else old(cells)[c]
      {
        assert CLEARED[..i + 1] == CLEARED[..i] + [CLEARED[i]];
        cells := cells[CLEARED[i] := Null];
      }
      assert CLEARED[..|CLEARED|] == CLEARED;
      forall c | c in cells ensures cells[c] == if Personal(c) then Null else old(cells)[c] {
        ClearedIsPersonal(c);
      }
    }
  }

  // --- Any sequence of updates --------------------------------------------------------

  ghost predicate Updates(row: Row, writes: seq<Row>) {
    forall k | 0 <= k < |writes| :: Versions(row, writes[k])
  }

  /** The row after all the updates. */
  function After(row: Row, writes: seq<Row>): (r: Row)
    requires Updates(row, writes) && IsOrder(row)
    ensures IsOrder(r) && r.Keys == row.Keys
  {
    if writes == [] then row
    else Guarded(After(row, writes[..|writes| - 1]), writes[|writes| - 1])
  }

  /** The saved cost: only an update that brings a country may replace it. */
  function KeptCost(cost: Cell, writes: seq<Row>): Cell
    requires forall k | 0 <= k < |writes| :: IsOrder(writes[k])
  {
    if writes == [] then cost
    else
      var last := writes[|writes| - 1];
      assert IsOrder(last);
      if last[ShippingCountry].Null? then KeptCost(cost, writes[..|writes| - 1]) else last[LogisticsCost]
  }

  /**
   Once marked, always marked: whatever is written later, the mark keeps its value, the
   erased columns are empty after every update, the cost is the last one that came with a
   country, and every other column is as it was written last.
   */
  lemma {:induction false} ErasureIsForGood(row: Row, writes: seq<Row>)
    requires Updates(row, writes) && IsOrder(row) && Marked(row)
    ensures var r := After(row, writes);
      && r[RedactedAt] == row[RedactedAt]
      && r[LogisticsCost] == KeptCost(row[LogisticsCost], writes)
      && (writes != [] ==>
           && (forall c | c in row && Personal(c) :: r[c].Null?)
           && forall c | c in row && !Personal(c) && c != RedactedAt && c != LogisticsCost :: r[c] == writes[|writes| - 1][c])
  {
    if writes != [] {
      ErasureIsForGood(row, writes[..|writes| - 1]);
    }
  }

  /** Until it is marked a row is what its writers make it, the update that marks it included. */
  lemma {:induction false} UnmarkedIsAsWritten(row: Row, writes: seq<Row>, k: nat)
    requires Updates(row, writes) && IsOrder(row) && k < |writes|
    requires !Marked(After(row, writes[..k]))
    ensures After(row, writes[..k + 1]) == writes[k]
  {
    AfterStep(row, writes, k);
  }

  lemma AfterStep(row: Row, writes: seq<Row>, k: nat)
    requires Updates(row, writes) && IsOrder(row) && k < |writes|
    ensures After(row, writes[..k + 1]) == Guarded(After(row, writes[..k]), writes[k])
  {
    var upTo := writes[..k + 1];
    hide Guarded, Marked;
    assert upTo[..k] == writes[..k] && upTo[k] == writes[k];
  }

  lemma {:induction false} AfterAppends(row: Row, writes: seq<Row>, more: seq<Row>)
    requires Updates(row, writes + more) && Updates(row, writes) && IsOrder(row)
    ensures Updates(After(row, writes), more)
    ensures After(row, writes + more) == After(After(row, writes), more)
  {
    assert forall k | 0 <= k < |more| :: (writes + more)[|writes| + k] == more[k];
    if more == [] {
      assert writes + more == writes;
    } else {
      var init := more[..|more| - 1];
      assert (writes + more)[..|writes + more| - 1] == writes + init;
      AfterAppends(row, writes, init);
    }
  }

  /** Whichever updates came first: once one of them has marked the row, no later one lets an erased column back in. */
  lemma NothingComesBack(row: Row, first: seq<Row>, later: seq<Row>)
    requires IsOrder(row) && Updates(row, first) && Updates(row, first + later)
    requires Marked(After(row, first)) && later != []
    ensures var r := After(row, first + later);
      r[RedactedAt] == After(row, first)[RedactedAt] && forall c | c in row && Personal(c) :: r[c].Null?
  {
    hide After, Guarded, KeptCost;
    AfterAppends(row, first, later);
    ErasureIsForGood(After(row, first), later);
  }
}

/** The append-only rental ledger and what its rows mean. */
module Ledger {
  import opened Prelude
  import opened Rounding

  type Id = nat

  /** Outcome of re-listing the account after a teardown. */
  datatype Verify = Gone | Present | Unverified

  datatype Event =
    | Rented(id: Id, dph: real)
    | Running(id: Id)
    | Destroyed(id: Id, torn: bool, verify: Verify, cost: real, reconciled: bool)
    | Other // a row without an instance id, or with another event name

  datatype Row = Row(ts: real, event: Event)

  /** One line of the JSONL file; Garbage is a line that does not parse. */
  datatype Line = Blank | Garbage | Entry(row: Row)

  function Rows(lines: seq<Line>): seq<Row> {
    if lines == [] then []
    else
      var rest := Rows(lines[..|lines| - 1]);
      var last := lines[|lines| - 1];
      if last.Entry? then rest + [last.row] else rest
  }

  /** Reading keeps every row, in order, and passes over blank lines and what does not parse. */
  lemma {:induction false} RowsAreTheEntries(lines: seq<Line>, more: seq<Line>, row: Row)
    ensures Rows(lines + more) == Rows(lines) + Rows(more)
    ensures Rows([Entry(row)]) == [row] && Rows([Blank]) == [] == Rows([Garbage])
  {
    if more == [] {
      assert lines + more == lines;
    } else {
      RowsAreTheEntries(lines, more[..|more| - 1], row);
      assert (lines + more)[..|lines + more| - 1] == lines + more[..|more| - 1];
    }
    assert [Entry(row)][..0] == [] == [Blank][..0] && [Garbage][..0] == [];
  }

  ghost predicate Parses(lines: seq<Line>) {
    Garbage !in lines
  }

  // The sets of instance ids the two readers of the ledger work with.

  ghost function RentedIds(rows: seq<Row>): set<Id> {
    set r | r in rows && r.event.Rented? :: r.event.id
  }

  /** Ids with a `rented` or a `running` row. */
  ghost function Seen(rows: seq<Row>): set<Id> {
    RentedIds(rows) + set r | r in rows && r.event.Running? :: r.event.id
  }

  /** Ids with any `destroyed` row, confirmed or not. */
  ghost function ClosedIds(rows: seq<Row>): set<Id> {
    set r | r in rows && r.event.Destroyed? :: r.event.id
  }

  /** Ids with a `destroyed` row whose teardown the listing confirmed. */
  ghost function ConfirmedGone(rows: seq<Row>): set<Id> {
    set r | r in rows && r.event.Destroyed? && r.event.verify.Gone? :: r.event.id
  }

  /** The reaper's reading: seen and never confirmed gone. */
  ghost function Leaked(rows: seq<Row>): set<Id> {
    Seen(rows) - ConfirmedGone(rows)
  }

  /** The budget's reading: rented and never closed at all. */
  ghost function OpenIds(rows: seq<Row>): set<Id> {
    RentedIds(rows) - ClosedIds(rows)
  }

  /** The last `rented` row of an id. */
  function RentRow(rows: seq<Row>, id: Id): (found: Option<Row>)
    ensures found.Some? ==> found.value in rows && found.value.event.Rented? && found.value.event.id == id
    ensures found.Some? <==> id in RentedIds(rows)
  {
    if rows == [] then None
    else
      var last := rows[|rows| - 1];
      assert rows == rows[..|rows| - 1] + [last];
      if last.event.Rented? && last.event.id == id then Some(last)
      else
        assert id in RentedIds(rows) ==> id in RentedIds(rows[..|rows| - 1]);
        RentRow(rows[..|rows| - 1], id)
  }

  function CostOf(row: Row): real {
    if row.event.Destroyed? then row.event.cost else 0.0
  }

  function TotalCost(rows: seq<Row>): real {
    if rows == [] then 0.0
    else TotalCost(rows[..|rows| - 1]) + CostOf(rows[|rows| - 1])
  }

  /** What `summary()` reports: the booked total, rounded to six decimals. */
  function Booked(rows: seq<Row>): real {
    RoundTo(TotalCost(rows), 1000000)
  }

  /** Every booked cost was rounded to four decimals before it was written. */
  ghost predicate FourDecimalCosts(rows: seq<Row>) {
    forall r :: r in rows ==> IsMultiple(CostOf(r), 10000)
  }

  // What one appended row changes.

  lemma AppendRow(rows: seq<Row>, r: Row)
    ensures RentedIds(rows + [r]) == RentedIds(rows) + (if r.event.Rented? then {r.event.id} else {})
    ensures Seen(rows + [r]) == Seen(rows) + (if r.event.Rented? || r.event.Running? then {r.event.id} else {})
    ensures ClosedIds(rows + [r]) == ClosedIds(rows) + (if r.event.Destroyed? then {r.event.id} else {})
    ensures ConfirmedGone(rows + [r])
         == ConfirmedGone(rows) + (if r.event.Destroyed? && r.event.verify.Gone? then {r.event.id} else {})
    ensures TotalCost(rows + [r]) == TotalCost(rows) + CostOf(r)
    ensures forall id :: RentRow(rows + [r], id)
                      == if r.event.Rented? && r.event.id == id then Some(r) else RentRow(rows, id)
  {
    assert (rows + [r])[..|rows|] == rows;
  }

  /** Rows written later never un-close an id and never forget a sighting. */
  lemma {:induction false} AppendRows(rows: seq<Row>, more: seq<Row>)
    ensures Seen(rows + more) == Seen(rows) + Seen(more)
    ensures RentedIds(rows + more) == RentedIds(rows) + RentedIds(more)
    ensures ClosedIds(rows + more) == ClosedIds(rows) + ClosedIds(more)
    ensures ConfirmedGone(rows + more) == ConfirmedGone(rows) + ConfirmedGone(more)
  {
    assert forall r :: r in rows + more <==> r in rows || r in more;
  }

  lemma {:induction false} CostsStayMultiples(rows: seq<Row>)
    requires FourDecimalCosts(rows)
    ensures IsMultiple(TotalCost(rows), 10000)
  {
    if rows == [] {
      assert 0.0 == Units(0, 10000);
    } else {
      CostsStayMultiples(rows[..|rows| - 1]);
      MultiplesAdd(TotalCost(rows[..|rows| - 1]), CostOf(rows[|rows| - 1]), 10000);
    }
  }

  /** The six-decimal rounding of the summary loses nothing on such a ledger. */
  lemma SummaryIsExact(rows: seq<Row>)
    requires FourDecimalCosts(rows)
    ensures Booked(rows) == TotalCost(rows)
  {
    CostsStayMultiples(rows);
    MultiplesRefine(TotalCost(rows), 10000, 100);
    RoundToExact(TotalCost(rows), 1000000);
  }

  /** The budget never counts an id the reaper has written off, and the ids only the
      reaper still worries about are exactly those whose `destroyed` row was not
      confirmed, plus those that were seen running without a `rented` row. */
  lemma BudgetAndReaperDisagreeOn(rows: seq<Row>)
    ensures OpenIds(rows) <= Leaked(rows)
    ensures Leaked(rows) - OpenIds(rows)
         == (ClosedIds(rows) * Seen(rows) - ConfirmedGone(rows)) + (Seen(rows) - RentedIds(rows) - ConfirmedGone(rows))
  {
  }

  class RentalLedger {
    var lines: seq<Line>

    constructor ()
      ensures lines == []
    {
      lines := [];
    }

    /** Appends one receipt, stamped with the wall clock rounded to milliseconds. */
    method Record(event: Event, clock: real)
      modifies this
      ensures lines == old(lines) + [Entry(Row(RoundTo(clock, 1000), event))]
      ensures Rows(lines) == Rows(old(lines)) + [Row(RoundTo(clock, 1000), event)]
    {
      var before := lines;
      lines := lines + [Entry(Row(RoundTo(clock, 1000), event))];
      assert lines[..|lines| - 1] == before;
    }

    /** Parses the whole file; an unparsable line is an error here. */
    method Events() returns (events: Option<seq<Row>>)
      ensures events == if Parses(lines) then Some(Rows(lines)) else None
      ensures events.None? <==> Garbage in lines
    {
      var rows: seq<Row> := [];
      for i := 0 to |lines|
        invariant rows == Rows(lines[..i])
        invariant Parses(lines[..i])
      {
        assert lines[..i + 1][..i] == lines[..i];
        match lines[i] {
          case Blank =>
          case Garbage =>
            assert lines[i] in lines;
            return None;
          case Entry(row) => rows := rows + [row];
        }
      }
      assert lines[..|lines|] == lines;
      return Some(rows);
    }

    /** Total estimated cost over the `destroyed` rows. */
    method Summary() returns (total: Option<real>)
      ensures total == if Parses(lines) then Some(Booked(Rows(lines))) else None
    {
      var events := Events();
      if events.None? {
        return None;
      }
      var sum := 0.0;
      for i := 0 to |events.value|
        invariant sum == TotalCost(events.value[..i])
      {
        assert events.value[..i + 1][..i] == events.value[..i];
        if events.value[i].event.Destroyed? {
          sum := sum + events.value[i].event.cost;
        }
      }
      assert events.value[..|events.value|] == events.value;
      return Some(RoundTo(sum, 1000000));
    }
  }
}

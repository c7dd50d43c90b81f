/** The enforced dollar cap: in-flight burn, spend, and the pre-rent gate. */
module Budget {
  import opened Prelude
  import opened Rounding
  import opened Sums
  import opened Ledger

  /** Dollars an open rental has burned by `now`, charged from its last `rented` row. */
  function Burn(rows: seq<Row>, id: Id, now: real): real {
    match RentRow(rows, id)
    case None => 0.0
    case Some(row) => Charge(row.event.dph, row.ts, now)
  }

  function Charge(dph: real, since: real, now: real): real {
    dph * Max(0.0, now - since) / 3600.0
  }

  ghost function BurnAt(rows: seq<Row>, now: real): Id -> real {
    (id: Id) => Burn(rows, id, now)
  }

  /** Dollars currently burning: every rented id with no `destroyed` row. */
  ghost function InFlight(rows: seq<Row>, now: real): real {
    Sum(OpenIds(rows), BurnAt(rows, now))
  }

  ghost function Spent(rows: seq<Row>, now: real): real {
    Booked(rows) + InFlight(rows, now)
  }

  ghost predicate RatesNonNegative(rows: seq<Row>) {
    forall r :: r in rows && r.event.Rented? ==> 0.0 <= r.event.dph
  }

  lemma BurnNonNegative(rows: seq<Row>, id: Id, now: real)
    requires RatesNonNegative(rows)
    ensures 0.0 <= Burn(rows, id, now)
  {
    var found := RentRow(rows, id);
    if found.Some? {
      ProductNonNegative(found.value.event.dph, Max(0.0, now - found.value.ts));
    }
  }

  lemma ProductNonNegative(x: real, y: real)
    requires 0.0 <= x && 0.0 <= y
    ensures 0.0 <= x * y
  {
  }

  lemma InFlightNonNegative(rows: seq<Row>, now: real)
    requires RatesNonNegative(rows)
    ensures 0.0 <= InFlight(rows, now)
  {
    forall id ensures 0.0 <= Burn(rows, id, now) {
      BurnNonNegative(rows, id, now);
    }
    SumNonNegative(OpenIds(rows), BurnAt(rows, now));
  }

  lemma {:induction false} SumNonNegative(s: set<Id>, f: Id -> real)
    requires forall x :: x in s ==> 0.0 <= f(x)
    ensures 0.0 <= Sum(s, f)
    decreases |s|
  {
    if s != {} {
      var x :| x in s;
      SumRemove(s, f, x);
      SumNonNegative(s - {x}, f);
    }
  }

  /** First pass over the log: the last `rented` row of each id, and the closed ids. */
  method IndexRentals(rows: seq<Row>) returns (rented: map<Id, Row>, destroyed: set<Id>)
    ensures rented.Keys == RentedIds(rows) && destroyed == ClosedIds(rows)
    ensures forall id :: id in rented ==> RentRow(rows, id) == Some(rented[id])
  {
    rented, destroyed := map[], {};
    for i := 0 to |rows|
      invariant rented.Keys == RentedIds(rows[..i])
      invariant forall id :: id in rented ==> RentRow(rows[..i], id) == Some(rented[id])
      invariant destroyed == ClosedIds(rows[..i])
    {
      AppendRow(rows[..i], rows[i]);
      assert rows[..i + 1] == rows[..i] + [rows[i]];
      match rows[i].event {
        case Rented(id, _) => rented := rented[id := rows[i]];
        case Destroyed(id, _, _, _, _) => destroyed := destroyed + {id};
        case _ =>
      }
    }
    assert rows[..|rows|] == rows;
  }

  lemma TakeOne(left: set<Id>, id: Id, destroyed: set<Id>, f: Id -> real)
    requires id in left
    ensures Sum(left - destroyed, f)
         == (if id in destroyed then 0.0 else f(id)) + Sum(left - {id} - destroyed, f)
  {
    if id in destroyed {
      assert left - {id} - destroyed == left - destroyed;
    } else {
      SumRemove(left - destroyed, f, id);
      assert left - destroyed - {id} == left - {id} - destroyed;
    }
  }

  /** Second pass: price every rental that was not closed. */
  method InFlightUsd(rows: seq<Row>, now: real) returns (total: real)
    ensures total == InFlight(rows, now)
  {
    var rented, destroyed := IndexRentals(rows);
    total := 0.0;
    var left := rented.Keys;
    while left != {}
      invariant left <= rented.Keys
      invariant total + Sum(left - destroyed, BurnAt(rows, now)) == InFlight(rows, now)
      decreases |left|
    {
      var id :| id in left;
      TakeOne(left, id, destroyed, BurnAt(rows, now));
      if id !in destroyed {
        total := total + Charge(rented[id].event.dph, rented[id].ts, now);
      }
      left := left - {id};
    }
    assert left - destroyed == {};
  }

  datatype Verdict = Admitted | BudgetExceeded(spent: real) | LedgerUnreadable

  /** The wrapper that refuses to rent past a dollar cap. */
  class CappedProvider {
    const cap: real
    const ledger: RentalLedger

    constructor (cap: real, ledger: RentalLedger)
      ensures this.cap == cap && this.ledger == ledger
    {
      this.cap, this.ledger := cap, ledger;
    }

    /** Booked plus in-flight dollars. */
    method SpentUsd(clock: real) returns (spent: Option<real>)
      ensures spent == if Parses(ledger.lines) then Some(Spent(Rows(ledger.lines), clock)) else None
    {
      var booked := ledger.Summary();
      if booked.None? {
        return None;
      }
      var events := ledger.Events();
      var burning := InFlightUsd(events.value, clock);
      return Some(booked.value + burning);
    }

    /** The gate in front of the inner rent: it admits exactly when spend is below the cap. */
    method Rent(clock: real) returns (verdict: Verdict)
      ensures verdict.LedgerUnreadable? <==> Garbage in ledger.lines
      ensures verdict.Admitted? <==> Parses(ledger.lines) && Spent(Rows(ledger.lines), clock) < cap
      ensures verdict.BudgetExceeded? ==> verdict.spent == Spent(Rows(ledger.lines), clock) >= cap
    {
      var spent := SpentUsd(clock);
      if spent.None? {
        return LedgerUnreadable;
      }
      if spent.value >= cap {
        return BudgetExceeded(spent.value);
      }
      return Admitted;
    }
  }
}

/** What a reap does to spend: to each id's, and to the total the cap looks at. */
module ReapSpend {
  import opened Prelude
  import opened Rounding
  import opened Sums
  import opened Ledger
  import opened Budget
  import opened Reap
  import opened ReapTheorems

  // ---- one id's spend over the ledger

  /** Everything booked for one id, over all its `destroyed` rows. */
  function BookedFor(rows: seq<Row>, id: Id): real {
    if rows == [] then 0.0
    else BookedFor(rows[..|rows| - 1], id) + if Closes(rows[|rows| - 1], id) then rows[|rows| - 1].event.cost else 0.0
  }

  predicate Closes(row: Row, id: Id) { row.event.Destroyed? && row.event.id == id }

  /** How many `destroyed` rows an id has. */
  function Closings(rows: seq<Row>, id: Id): nat {
    if rows == [] then 0
    else Closings(rows[..|rows| - 1], id) + if Closes(rows[|rows| - 1], id) then 1 else 0
  }

  /** Dollars counted as burning for one id. */
  ghost function OpenBurn(rows: seq<Row>, id: Id, t: real): real {
    if id in OpenIds(rows) then Burn(rows, id, t) else 0.0
  }

  /** What the ledger says one id has cost by t. */
  ghost function IdSpend(rows: seq<Row>, id: Id, t: real): real {
    BookedFor(rows, id) + OpenBurn(rows, id, t)
  }

  lemma {:induction false} BookedAppend(a: seq<Row>, b: seq<Row>, id: Id)
    ensures BookedFor(a + b, id) == BookedFor(a, id) + BookedFor(b, id)
    ensures Closings(a + b, id) == Closings(a, id) + Closings(b, id)
  {
    if b == [] {
      assert a + b == a;
    } else {
      var n := |b| - 1;
      BookedAppend(a, b[..n], id);
      assert (a + b)[..|a + b| - 1] == a + b[..n];
    }
  }

  ghost predicate AllDifferent(ids: seq<Id>) {
    forall i, j :: 0 <= i < j < |ids| ==> ids[i] != ids[j]
  }

  function CostOfClosing(rents: seq<Row>, id: Id, killed: set<Id>, now: real): real {
    ClosingCost(RentRow(rents, id), id in killed, now)
  }

  lemma {:induction false} ClosingRowsBook(rents: seq<Row>, ids: seq<Id>, killed: set<Id>, now: real, id: Id)
    requires AllDifferent(ids)
    ensures Closings(ClosingRows(rents, ids, killed, now), id) == if id in ids then 1 else 0
    ensures BookedFor(ClosingRows(rents, ids, killed, now), id)
         == if id in ids then CostOfClosing(rents, id, killed, now) else 0.0
  {
    if ids != [] {
      var n := |ids| - 1;
      ClosingRowsBook(rents, ids[..n], killed, now, id);
      assert ids == ids[..n] + [ids[n]];
    }
  }

  lemma ClosedAreDifferent(killed: set<Id>, vanished: set<Id>)
    requires killed !! vanished
    ensures AllDifferent(Sorted(killed) + Sorted(vanished))
  {
    var a, b := Sorted(killed), Sorted(vanished);
    forall i, j | 0 <= i < j < |a + b| ensures (a + b)[i] != (a + b)[j] {
      if i < |a| <= j {
        assert (a + b)[i] in a && (a + b)[j] in b;
      }
    }
  }

  /** A reap writes exactly one `destroyed` row for each id it closes and none for any other;
      a killed id is booked its closing cost, a vanished one nothing. */
  lemma OneRowPerClosedId(rows: seq<Row>, live: seq<Instance>, f: Filters, market: Market, retries: nat,
                          others: Meanwhile, now: real, r: Reaped, id: Id)
    requires r == ReapSpec(rows, live, f, market, retries, others, now)
    ensures r.killed !! r.vanished
    ensures Closings(r.rows, id) == Closings(OpenRows(rows, others), id) + if id in r.killed + r.vanished then 1 else 0
    ensures BookedFor(r.rows, id)
         == BookedFor(OpenRows(rows, others), id)
            + if id in r.killed then ClosingCost(RentRow(rows + others.early, id), true, now) else 0.0
  {
    var rents, open := rows + others.early, OpenRows(rows, others);
    ClosedAreDifferent(r.killed, r.vanished);
    ClosingRowsBook(rents, r.closed, r.killed, now, id);
    BookedAppend(open, ClosingRows(rents, r.closed, r.killed, now), id);
  }

  /** How a reap moves each id's spend, at any later time: a killed id stops burning and is
      booked its closing cost, a vanished one just stops burning, no other id moves. */
  lemma SpendMoves(rows: seq<Row>, live: seq<Instance>, f: Filters, market: Market, retries: nat,
                   others: Meanwhile, now: real, r: Reaped, id: Id, t: real)
    requires r == ReapSpec(rows, live, f, market, retries, others, now)
    ensures IdSpend(r.rows, id, t) - IdSpend(OpenRows(rows, others), id, t)
         == if id in r.killed then
              ClosingCost(RentRow(rows + others.early, id), true, now) - OpenBurn(OpenRows(rows, others), id, t)
            else if id in r.vanished then -OpenBurn(OpenRows(rows, others), id, t)
            else 0.0
  {
    OneRowPerClosedId(rows, live, f, market, retries, others, now, r, id);
    RepairIsExact(rows, live, f, market, retries, others, now, r);
    assert Burn(r.rows, id, t) == Burn(OpenRows(rows, others), id, t);
  }

  // ---- one rental's closing, in numbers

  function ShiftBound(dph: real): real { 0.05 * dph / 3600.0 + 0.00005 }

  function RentedAt(ts: real, id: Id, dph: real): Row { Row(ts, Rented(id, dph)) }

  /** The same rental at another rate. */
  function PricedAt(found: Option<Row>, id: Id, dph: real): Option<Row> {
    match found
    case None => None
    case Some(row) => Some(RentedAt(row.ts, id, dph))
  }

  /** Seconds a closing bills: rent to now, to one decimal; none without a usable stamp. */
  function BilledSeconds(found: Option<Row>, now: real): real {
    if found.Some? && found.value.ts != 0.0 then RoundTo(now - found.value.ts, 10) else 0.0
  }

  /** Seconds the budget counts for a rental, until any `destroyed` row closes it. */
  function CountedSeconds(found: Option<Row>, closed: bool, now: real): real {
    if found.Some? && !closed then Max(0.0, now - found.value.ts) else 0.0
  }

  function CountedAt(counted: real, dph: real): real { dph * counted / 3600.0 }

  /** Seconds that agree to a rounding cost the same to a rounding, at any rate. */
  lemma CloseSecondsCloseCost(cost: real, billed: real, counted: real, dph: real)
    requires 0.0 <= dph && Within(billed - counted, 0.05) && Within(cost - AtRate(billed, dph), 0.00005)
    ensures Within(cost - CountedAt(counted, dph), ShiftBound(dph))
  {
    var d := billed - counted;
    RateDifference(billed, counted, dph);
    ProductNonNegative(dph, 0.05 - d);
    ProductNonNegative(dph, 0.05 + d);
    assert dph * (0.05 - d) == 0.05 * dph - dph * d && dph * (0.05 + d) == 0.05 * dph + dph * d;
  }

  lemma RateDifference(billed: real, counted: real, dph: real)
    ensures AtRate(billed, dph) - CountedAt(counted, dph) == dph * (billed - counted) / 3600.0
  {
    assert AtRate(billed, dph) == dph * billed / 3600.0;
    assert dph * (billed - counted) == dph * billed - dph * counted;
  }

  /** Seconds that differ by more cost more than the roundings at some rate. */
  lemma FarSecondsFarCost(cost: real, billed: real, counted: real, dph: real)
    requires !Within(billed - counted, 0.05) && dph == RateThatShows(billed - counted)
    requires Within(cost - AtRate(billed, dph), 0.00005)
    ensures !Within(cost - CountedAt(counted, dph), ShiftBound(dph))
  {
    var d := billed - counted;
    var far := Abs(d) - 0.05;
    RateDifference(billed, counted, dph);
    assert dph * far == 0.72;
    assert dph * Abs(d) == 0.72 + 0.05 * dph;
    assert dph * d == if d >= 0.0 then dph * Abs(d) else -(dph * Abs(d));
  }

  function Abs(x: real): real { if x >= 0.0 then x else -x }

  function RateThatShows(d: real): (dph: real)
    requires !Within(d, 0.05)
    ensures 0.0 <= dph
  {
    0.72 / (Abs(d) - 0.05)
  }

  lemma ZeroProduct(x: real, y: real)
    requires x == 0.0 || y == 0.0
    ensures x * y == 0.0
  {
  }

  lemma ZeroRoundsToZero()
    ensures RoundTo(0.0, 10000) == 0.0
  {
    assert Scaled(0.0, 10000) == 0.0 && Nearest(0.0) == 0;
  }

  /** The amount a closing cost rounds. */
  lemma CostIsRounded(found: Option<Row>, now: real)
    requires found.Some? ==> found.value.event.Rented?
    ensures ClosingCost(found, true, now)
         == if found.Some? then RoundTo(AtRate(BilledSeconds(found, now), found.value.event.dph), 10000) else 0.0
  {
    if found.Some? {
      var billed, dph := BilledSeconds(found, now), found.value.event.dph;
      if billed == 0.0 || dph == 0.0 {
        ZeroProduct(billed / 3600.0, dph);
        ZeroRoundsToZero();
        assert AtRate(billed, dph) == 0.0;
      }
    }
  }

  lemma CostNearBilled(found: Option<Row>, id: Id, now: real, dph: real)
    ensures Within(ClosingCost(PricedAt(found, id, dph), true, now) - AtRate(BilledSeconds(found, now), dph), 0.00005)
  {
    CostIsRounded(PricedAt(found, id, dph), now);
    RoundToError(AtRate(BilledSeconds(found, now), dph), 10000);
    ZeroProduct(0.0, dph);
  }

  // ---- when closing moves a killed id by rounding only

  /** The same ledger with one id rented at another rate. */
  function Repriced(rows: seq<Row>, id: Id, dph: real): seq<Row> {
    if rows == [] then []
    else Repriced(rows[..|rows| - 1], id, dph) + [RepricedRow(rows[|rows| - 1], id, dph)]
  }

  function RepricedRow(row: Row, id: Id, dph: real): Row {
    if row.event.Rented? && row.event.id == id then Row(row.ts, Rented(id, dph)) else row
  }

  lemma {:induction false} RepricedIds(rows: seq<Row>, id: Id, dph: real)
    ensures Leaked(Repriced(rows, id, dph)) == Leaked(rows) && ClosedIds(Repriced(rows, id, dph)) == ClosedIds(rows)
    ensures RentedIds(Repriced(rows, id, dph)) == RentedIds(rows)
  {
    RepricedSets(rows, id, dph);
  }

  lemma {:induction false} RepricedSets(rows: seq<Row>, id: Id, dph: real)
    ensures Seen(Repriced(rows, id, dph)) == Seen(rows) && RentedIds(Repriced(rows, id, dph)) == RentedIds(rows)
    ensures ClosedIds(Repriced(rows, id, dph)) == ClosedIds(rows)
    ensures ConfirmedGone(Repriced(rows, id, dph)) == ConfirmedGone(rows)
  {
    if rows != [] {
      var n := |rows| - 1;
      assert rows == rows[..n] + [rows[n]];
      RepricedSets(rows[..n], id, dph);
      AppendRow(rows[..n], rows[n]);
      AppendRow(Repriced(rows[..n], id, dph), RepricedRow(rows[n], id, dph));
    }
  }

  lemma {:induction false} RepricedRent(rows: seq<Row>, id: Id, dph: real)
    ensures RentRow(rows, id).None? ==> RentRow(Repriced(rows, id, dph), id).None?
    ensures RentRow(rows, id).Some? ==>
              RentRow(Repriced(rows, id, dph), id) == Some(RentedAt(RentRow(rows, id).value.ts, id, dph))
  {
    if rows != [] {
      var n := |rows| - 1;
      RepricedRent(rows[..n], id, dph);
      var p := Repriced(rows, id, dph);
      assert p[..|p| - 1] == Repriced(rows[..n], id, dph);
    }
  }

  lemma {:induction false} RepricedAppend(a: seq<Row>, b: seq<Row>, id: Id, dph: real)
    ensures Repriced(a + b, id, dph) == Repriced(a, id, dph) + Repriced(b, id, dph)
  {
    if b == [] {
      assert a + b == a;
    } else {
      var n := |b| - 1;
      RepricedAppend(a, b[..n], id, dph);
      assert (a + b)[..|a + b| - 1] == a + b[..n];
    }
  }

  function RepricedMeanwhile(others: Meanwhile, id: Id, dph: real): Meanwhile {
    Meanwhile(Repriced(others.early, id, dph), Repriced(others.late, id, dph))
  }

  /** Nothing a reap decides depends on a rate. */
  lemma RepricedReapsSame(rows: seq<Row>, live: seq<Instance>, f: Filters, market: Market, retries: nat,
                          others: Meanwhile, now: real, id: Id, dph: real)
    ensures var p, q := Repriced(rows, id, dph), RepricedMeanwhile(others, id, dph);
            && ReapSpec(p, live, f, market, retries, q, now).killed
               == ReapSpec(rows, live, f, market, retries, others, now).killed
            && p + q.early == Repriced(rows + others.early, id, dph)
            && OpenRows(p, q) == Repriced(OpenRows(rows, others), id, dph)
  {
    RepricedIds(rows, id, dph);
    RepricedAppend(rows, others.early, id, dph);
    RepricedAppend(rows + others.early, others.late, id, dph);
  }

  /** The id's spend moves by no more than the two roundings, whatever it is rented at. */
  ghost predicate MovesByRounding(rows: seq<Row>, live: seq<Instance>, f: Filters, market: Market, retries: nat,
                                  others: Meanwhile, now: real, id: Id)
  {
    forall dph :: 0.0 <= dph ==> MovesByRoundingAt(rows, live, f, market, retries, others, now, id, dph)
  }

  ghost predicate MovesByRoundingAt(rows: seq<Row>, live: seq<Instance>, f: Filters, market: Market, retries: nat,
                                    others: Meanwhile, now: real, id: Id, dph: real)
  {
    Within(SpendMoveAt(rows, live, f, market, retries, others, now, id, dph), ShiftBound(dph))
  }

  /** How far the reap moves the id's spend, had it been rented at this rate. */
  ghost function SpendMoveAt(rows: seq<Row>, live: seq<Instance>, f: Filters, market: Market, retries: nat,
                             others: Meanwhile, now: real, id: Id, dph: real): real
  {
    var p, q := Repriced(rows, id, dph), RepricedMeanwhile(others, id, dph);
    IdSpend(ReapSpec(p, live, f, market, retries, q, now).rows, id, now) - IdSpend(OpenRows(p, q), id, now)
  }

  /** Billed and counted seconds agree up to the rounding of the billed ones. */
  predicate SecondsAgree(billedRow: Option<Row>, countedRow: Option<Row>, closed: bool, now: real) {
    Within(BilledSeconds(billedRow, now) - CountedSeconds(countedRow, closed, now), 0.05)
  }

  /** What a killed id's spend moves by at one rate: booked on closing, less what was counted. */
  function MoveFrom(billedRow: Option<Row>, countedRow: Option<Row>, id: Id, closed: bool, now: real, dph: real): real {
    ClosingCost(PricedAt(billedRow, id, dph), true, now) - CountedAt(CountedSeconds(countedRow, closed, now), dph)
  }

  /** The move is within the roundings at one rate. */
  predicate MovesLittle(billedRow: Option<Row>, countedRow: Option<Row>, id: Id, closed: bool, now: real, dph: real) {
    Within(MoveFrom(billedRow, countedRow, id, closed, now, dph), ShiftBound(dph))
  }

  lemma AgreeingMovesLittle(billedRow: Option<Row>, countedRow: Option<Row>, id: Id, closed: bool, now: real, dph: real)
    requires SecondsAgree(billedRow, countedRow, closed, now) && 0.0 <= dph
    ensures MovesLittle(billedRow, countedRow, id, closed, now, dph)
  {
    CostNearBilled(billedRow, id, now, dph);
    CloseSecondsCloseCost(ClosingCost(PricedAt(billedRow, id, dph), true, now), BilledSeconds(billedRow, now),
                          CountedSeconds(countedRow, closed, now), dph);
  }

  lemma AgreeingMoves(billedRow: Option<Row>, countedRow: Option<Row>, id: Id, closed: bool, now: real, dph: real)
    returns (move: real)
    requires SecondsAgree(billedRow, countedRow, closed, now) && 0.0 <= dph
    ensures move == MoveFrom(billedRow, countedRow, id, closed, now, dph) && Within(move, ShiftBound(dph))
  {
    AgreeingMovesLittle(billedRow, countedRow, id, closed, now, dph);
    move := MoveFrom(billedRow, countedRow, id, closed, now, dph);
  }

  lemma DisagreeingMoves(billedRow: Option<Row>, countedRow: Option<Row>, id: Id, closed: bool, now: real)
    returns (dph: real, move: real)
    requires !SecondsAgree(billedRow, countedRow, closed, now)
    ensures 0.0 <= dph
    ensures move == MoveFrom(billedRow, countedRow, id, closed, now, dph) && !Within(move, ShiftBound(dph))
  {
    var billed, counted := BilledSeconds(billedRow, now), CountedSeconds(countedRow, closed, now);
    dph := RateThatShows(billed - counted);
    move := MoveFrom(billedRow, countedRow, id, closed, now, dph);
    CostNearBilled(billedRow, id, now, dph);
    FarSecondsFarCost(ClosingCost(PricedAt(billedRow, id, dph), true, now), billed, counted, dph);
  }

  lemma OpenBurnIsCounted(open: seq<Row>, id: Id, dph: real, now: real)
    ensures OpenBurn(Repriced(open, id, dph), id, now)
         == CountedAt(CountedSeconds(RentRow(open, id), id in ClosedIds(open), now), dph)
  {
    RepricedRent(open, id, dph);
    RepricedIds(open, id, dph);
    ZeroProduct(dph, 0.0);
  }

  lemma RepricedMove(open: seq<Row>, rents: seq<Row>, id: Id, dph: real, now: real, move: real)
    requires move == MoveFrom(RentRow(rents, id), RentRow(open, id), id, id in ClosedIds(open), now, dph)
    ensures ClosingCost(RentRow(Repriced(rents, id, dph), id), true, now) - OpenBurn(Repriced(open, id, dph), id, now)
         == move
  {
    RepricedRent(rents, id, dph);
    OpenBurnIsCounted(open, id, dph, now);
    assert RentRow(Repriced(rents, id, dph), id) == PricedAt(RentRow(rents, id), id, dph);
  }

  lemma KilledMove(rows: seq<Row>, live: seq<Instance>, f: Filters, market: Market, retries: nat,
                   others: Meanwhile, now: real, rents: seq<Row>, open: seq<Row>, id: Id, move: real)
    requires id in ReapSpec(rows, live, f, market, retries, others, now).killed
    requires rents == rows + others.early && open == OpenRows(rows, others)
    requires ClosingCost(RentRow(rents, id), true, now) - OpenBurn(open, id, now) == move
    ensures IdSpend(ReapSpec(rows, live, f, market, retries, others, now).rows, id, now)
            - IdSpend(OpenRows(rows, others), id, now) == move
  {
    var r := ReapSpec(rows, live, f, market, retries, others, now);
    SpendMoves(rows, live, f, market, retries, others, now, r, id, now);
  }

  lemma RepricedKill(rows: seq<Row>, live: seq<Instance>, f: Filters, market: Market, retries: nat,
                     others: Meanwhile, now: real, id: Id, dph: real, rents: seq<Row>, open: seq<Row>, move: real)
    requires id in ReapSpec(rows, live, f, market, retries, others, now).killed
    requires rents == rows + others.early && open == OpenRows(rows, others)
    requires ClosingCost(RentRow(Repriced(rents, id, dph), id), true, now) - OpenBurn(Repriced(open, id, dph), id, now)
          == move
    ensures SpendMoveAt(rows, live, f, market, retries, others, now, id, dph) == move
  {
    RepricedReapsSame(rows, live, f, market, retries, others, now, id, dph);
    KilledMove(Repriced(rows, id, dph), live, f, market, retries, RepricedMeanwhile(others, id, dph), now,
               Repriced(rents, id, dph), Repriced(open, id, dph), id, move);
  }

  /** The move of one killed id at one rate, from its rows alone. */
  lemma MoveAtRate(rows: seq<Row>, live: seq<Instance>, f: Filters, market: Market, retries: nat,
                   others: Meanwhile, now: real, id: Id, dph: real, move: real)
    requires id in ReapSpec(rows, live, f, market, retries, others, now).killed
    requires move == MoveFrom(RentRow(rows + others.early, id), RentRow(OpenRows(rows, others), id), id,
                              id in ClosedIds(OpenRows(rows, others)), now, dph)
    ensures SpendMoveAt(rows, live, f, market, retries, others, now, id, dph) == move
  {
    var rents, open := rows + others.early, OpenRows(rows, others);
    RepricedMove(open, rents, id, dph, now, move);
    RepricedKill(rows, live, f, market, retries, others, now, id, dph, rents, open, move);
  }

  /** Killing a leaked host moves its spend by at most the two roundings, at every rate, if and
      only if the seconds the reaper bills and the seconds the budget was counting agree to the
      rounding of the billed ones. */
  lemma KilledSpendMovesByRounding(rows: seq<Row>, live: seq<Instance>, f: Filters, market: Market, retries: nat,
                                   others: Meanwhile, now: real, id: Id)
    requires id in ReapSpec(rows, live, f, market, retries, others, now).killed
    ensures MovesByRounding(rows, live, f, market, retries, others, now, id)
       <==> SecondsAgree(RentRow(rows + others.early, id), RentRow(OpenRows(rows, others), id),
                         id in ClosedIds(OpenRows(rows, others)), now)
  {
    var open := OpenRows(rows, others);
    var billedRow, countedRow, closed := RentRow(rows + others.early, id), RentRow(open, id), id in ClosedIds(open);
    if SecondsAgree(billedRow, countedRow, closed, now) {
      forall dph | 0.0 <= dph ensures MovesByRoundingAt(rows, live, f, market, retries, others, now, id, dph) {
        var move := AgreeingMoves(billedRow, countedRow, id, closed, now, dph);
        MoveAtRate(rows, live, f, market, retries, others, now, id, dph, move);
      }
    } else {
      var dph, move := DisagreeingMoves(billedRow, countedRow, id, closed, now);
      MoveAtRate(rows, live, f, market, retries, others, now, id, dph, move);
      assert !MovesByRoundingAt(rows, live, f, market, retries, others, now, id, dph);
    }
  }

  // ---- which stamps agree

  /** An open rental's stamp is usable (not the falsy zero) and not in the future by more than
      the rounding; a closed one has nothing left to bill. */
  predicate Settles(found: Option<Row>, closed: bool, now: real) {
    found.Some? ==>
      var ts := found.value.ts;
      if closed then ts == 0.0 || Within(now - ts, 0.05)
      else if ts == 0.0 then now <= 0.05
      else ts <= now + 0.05
  }

  lemma TenthsBelow(x: real)
    requires x < -0.05
    ensures RoundTo(x, 10) <= -0.1
  {
    assert Scaled(x, 10) < -0.5;
    assert Nearest(Scaled(x, 10)) <= -1;
    assert Units(Nearest(Scaled(x, 10)), 10) <= Units(-1, 10);
  }

  lemma TenthsAbove(x: real)
    requires x > 0.05
    ensures RoundTo(x, 10) >= 0.1
  {
    assert Scaled(x, 10) > 0.5;
    assert Nearest(Scaled(x, 10)) >= 1;
    assert Units(Nearest(Scaled(x, 10)), 10) >= Units(1, 10);
  }

  lemma TenthsNone(x: real)
    requires -0.05 <= x <= 0.05
    ensures RoundTo(x, 10) == 0.0
  {
    assert -0.5 <= Scaled(x, 10) <= 0.5;
    assert Nearest(Scaled(x, 10)) == 0;
  }

  lemma RoundedElapsed(x: real)
    ensures Within(RoundTo(x, 10), 0.05) <==> Within(x, 0.05)
    ensures Within(RoundTo(x, 10) - Max(0.0, x), 0.05) <==> -0.05 <= x
  {
    RoundToError(x, 10);
    if x < -0.05 {
      TenthsBelow(x);
    } else if x > 0.05 {
      TenthsAbove(x);
    } else {
      TenthsNone(x);
    }
  }

  /** With one rental row for the id, the seconds agree exactly when the rental is open with a
      usable stamp, or closed with nothing left to bill: a stamp in the future books a negative
      cost, and a host whose own teardown already booked it is booked a second time. */
  lemma SecondsAgreeExactly(found: Option<Row>, closed: bool, now: real)
    ensures SecondsAgree(found, found, closed, now) <==> Settles(found, closed, now)
  {
    if found.Some? {
      RoundedElapsed(now - found.value.ts);
    }
  }

  // ---- the total

  ghost function MoveOf(open: seq<Row>, rents: seq<Row>, killed: set<Id>, now: real, t: real): Id -> real {
    (id: Id) => CostOfClosing(rents, id, killed, now) - OpenBurn(open, id, t)
  }

  ghost function Costs(rents: seq<Row>, killed: set<Id>, now: real): Id -> real {
    (id: Id) => CostOfClosing(rents, id, killed, now)
  }

  ghost function OpenBurnAt(open: seq<Row>, t: real): Id -> real {
    (id: Id) => OpenBurn(open, id, t)
  }

  lemma {:induction false} TotalOfClosings(rents: seq<Row>, ids: seq<Id>, killed: set<Id>, now: real)
    requires AllDifferent(ids)
    ensures TotalCost(ClosingRows(rents, ids, killed, now)) == Sum(SetOf(ids), Costs(rents, killed, now))
    ensures FourDecimalCosts(ClosingRows(rents, ids, killed, now))
  {
    if ids != [] {
      var n := |ids| - 1;
      TotalOfClosings(rents, ids[..n], killed, now);
      assert ids == ids[..n] + [ids[n]];
      assert SetOf(ids) - {ids[n]} == SetOf(ids[..n]);
      SumRemove(SetOf(ids), Costs(rents, killed, now), ids[n]);
      ClosingCostIsMultiple(RentRow(rents, ids[n]), ids[n] in killed, now);
    }
  }

  lemma ClosingCostIsMultiple(row: Option<Row>, killed: bool, now: real)
    ensures IsMultiple(ClosingCost(row, killed, now), 10000)
  {
    assert 0.0 == Units(0, 10000);
    var billed := BilledTo(row, now);
    if billed.Some? && row.value.event.Rented? {
      RoundToIsMultiple(AtRate(billed.value, row.value.event.dph), 10000);
    }
  }

  lemma {:induction false} TotalAppend(a: seq<Row>, b: seq<Row>)
    ensures TotalCost(a + b) == TotalCost(a) + TotalCost(b)
  {
    if b == [] {
      assert a + b == a;
    } else {
      var n := |b| - 1;
      TotalAppend(a, b[..n]);
      assert (a + b)[..|a + b| - 1] == a + b[..n];
    }
  }

  /** Taking ids out of the open set takes their burn out of the sum. */
  lemma InFlightLoses(open: seq<Row>, after: seq<Row>, gone: set<Id>, t: real)
    requires OpenIds(after) == OpenIds(open) - gone && forall id :: Burn(after, id, t) == Burn(open, id, t)
    ensures InFlight(after, t) == InFlight(open, t) - Sum(gone, OpenBurnAt(open, t))
  {
    var both := OpenIds(open) * gone;
    SumCongruent(OpenIds(after), BurnAt(after, t), BurnAt(open, t));
    SumSplit(OpenIds(open), both, BurnAt(open, t));
    assert OpenIds(open) - both == OpenIds(after);
    SumSplit(gone, both, OpenBurnAt(open, t));
    SumCongruent(both, OpenBurnAt(open, t), BurnAt(open, t));
    SumOfZeros(gone - both, OpenBurnAt(open, t));
  }

  lemma {:induction false} SumOfZeros(s: set<Id>, f: Id -> real)
    requires forall x :: x in s ==> f(x) == 0.0
    ensures Sum(s, f) == 0.0
    decreases |s|
  {
    if s != {} {
      var x :| x in s;
      SumRemove(s, f, x);
      SumOfZeros(s - {x}, f);
    }
  }

  /** The spend the cap compares moves by exactly the moves of the closed ids. */
  lemma SpentMovesByIds(rows: seq<Row>, live: seq<Instance>, f: Filters, market: Market, retries: nat,
                        others: Meanwhile, now: real, r: Reaped, t: real)
    requires r == ReapSpec(rows, live, f, market, retries, others, now) && FourDecimalCosts(OpenRows(rows, others))
    ensures Spent(r.rows, t) - Spent(OpenRows(rows, others), t)
         == Sum(r.killed + r.vanished, MoveOf(OpenRows(rows, others), rows + others.early, r.killed, now, t))
  {
    var rents, open, closed := rows + others.early, OpenRows(rows, others), r.killed + r.vanished;
    var more := ClosingRows(rents, r.closed, r.killed, now);
    OneRowPerClosedId(rows, live, f, market, retries, others, now, r, 0);
    RepairIsExact(rows, live, f, market, retries, others, now, r);
    ClosedAreDifferent(r.killed, r.vanished);
    ClosedIdsAre(r.closed, r.killed, r.vanished);
    TotalOfClosings(rents, r.closed, r.killed, now);
    TotalAppend(open, more);
    InFlightLoses(open, r.rows, closed, t);
    SumOfDifferences(closed, Costs(rents, r.killed, now), OpenBurnAt(open, t), MoveOf(open, rents, r.killed, now, t));
    SummaryIsExact(open);
    SummaryIsExact(r.rows);
  }

  ghost function RateBound(open: seq<Row>): Id -> real {
    (id: Id) => if RentRow(open, id).Some? then ShiftBound(RentRow(open, id).value.event.dph) else 0.0
  }

  /** When every killed id settles, the cap's spend drops by the vanished ids' burn, which can
      no longer be known, and otherwise moves by no more than the sum of the roundings. */
  lemma SettledReapMovesSpentByRounding(rows: seq<Row>, live: seq<Instance>, f: Filters, market: Market, retries: nat,
                                        others: Meanwhile, now: real, r: Reaped)
    requires r == ReapSpec(rows, live, f, market, retries, others, now)
    requires FourDecimalCosts(OpenRows(rows, others)) && RatesNonNegative(OpenRows(rows, others))
    requires forall id :: id in r.killed ==>
               && RentRow(rows + others.early, id) == RentRow(OpenRows(rows, others), id)
               && Settles(RentRow(OpenRows(rows, others), id), id in ClosedIds(OpenRows(rows, others)), now)
    ensures Within(Spent(r.rows, now) + Sum(r.vanished, OpenBurnAt(OpenRows(rows, others), now))
                   - Spent(OpenRows(rows, others), now),
                   Sum(r.killed, RateBound(OpenRows(rows, others))))
  {
    var rents, open := rows + others.early, OpenRows(rows, others);
    var move := MoveOf(open, rents, r.killed, now, now);
    SpentMovesByIds(rows, live, f, market, retries, others, now, r, now);
    OneRowPerClosedId(rows, live, f, market, retries, others, now, r, 0);
    MovesSplit(open, rents, r.killed, r.vanished, now);
    forall id | id in r.killed ensures Within(move(id), RateBound(open)(id)) {
      KilledMoveWithin(open, rents, r.killed, now, id);
    }
    SumWithin(r.killed, move, RateBound(open));
  }

  lemma MovesSplit(open: seq<Row>, rents: seq<Row>, killed: set<Id>, vanished: set<Id>, now: real)
    requires killed !! vanished
    ensures Sum(killed + vanished, MoveOf(open, rents, killed, now, now))
         == Sum(killed, MoveOf(open, rents, killed, now, now)) - Sum(vanished, OpenBurnAt(open, now))
  {
    var move := MoveOf(open, rents, killed, now, now);
    SumSplit(killed + vanished, vanished, move);
    assert killed + vanished - vanished == killed;
    SumOfDifferences(vanished, Costs(rents, killed, now), OpenBurnAt(open, now), move);
    SumOfZeros(vanished, Costs(rents, killed, now));
  }

  lemma KilledMoveWithin(open: seq<Row>, rents: seq<Row>, killed: set<Id>, now: real, id: Id)
    requires id in killed && RatesNonNegative(open) && RentRow(rents, id) == RentRow(open, id)
    requires Settles(RentRow(open, id), id in ClosedIds(open), now)
    ensures Within(MoveOf(open, rents, killed, now, now)(id), RateBound(open)(id))
  {
    var found, closed := RentRow(open, id), id in ClosedIds(open);
    SecondsAgreeExactly(found, closed, now);
    if found.Some? {
      var dph := found.value.event.dph;
      assert found == PricedAt(found, id, dph);
      AgreeingMovesLittle(found, found, id, closed, now, dph);
      RowBurnIsCounted(open, id, dph, now);
    }
  }

  lemma RowBurnIsCounted(open: seq<Row>, id: Id, dph: real, now: real)
    requires RentRow(open, id).Some? && dph == RentRow(open, id).value.event.dph
    ensures OpenBurn(open, id, now) == CountedAt(CountedSeconds(RentRow(open, id), id in ClosedIds(open), now), dph)
  {
    ZeroProduct(dph, 0.0);
  }

  const LEAKED_RENT := Row(1.0, Rented(7, 36.0))
  const LEAKED_CLOSE := Row(100.0, Destroyed(7, false, Present, 0.99, false))

  lemma LeakReads()
    ensures var rows := [LEAKED_RENT, LEAKED_CLOSE];
            && Leaked(rows) == {7} && 7 in ClosedIds(rows) && RentRow(rows, 7) == Some(LEAKED_RENT)
            && BookedFor(rows, 7) == 0.99
  {
    var rows := [LEAKED_RENT, LEAKED_CLOSE];
    AppendRow([], LEAKED_RENT);
    AppendRow([LEAKED_RENT], LEAKED_CLOSE);
    assert [] + [LEAKED_RENT] == [LEAKED_RENT] && [LEAKED_RENT] + [LEAKED_CLOSE] == rows;
    assert rows[..1] == [LEAKED_RENT] && [LEAKED_RENT][..0] == [];
    assert Seen(rows) == {7} && ConfirmedGone(rows) == {};
    assert RentRow([LEAKED_RENT], 7) == Some(LEAKED_RENT);
    assert BookedFor([LEAKED_RENT], 7) == 0.0;
  }

  /** A closing whose seconds and dollars have few enough decimals is not rounded at all. */
  lemma ClosingIsExact(row: Row, now: real, cost: real)
    requires row.event.Rented? && row.ts != 0.0 && IsMultiple(now - row.ts, 10)
    requires AtRate(now - row.ts, row.event.dph) == cost && IsMultiple(cost, 10000)
    ensures ClosingCost(Some(row), true, now) == cost
  {
    RoundToExact(now - row.ts, 10);
    CostIsRounded(Some(row), now);
    RoundToExact(cost, 10000);
  }

  lemma LeakNumbers(elapsed: real, dph: real, cost: real)
    requires elapsed == 99.0 && dph == 36.0 && cost == 0.99
    ensures IsMultiple(elapsed, 10) && AtRate(elapsed, dph) == cost && IsMultiple(cost, 10000)
  {
    assert elapsed == Units(990, 10);
    assert cost == Units(9900, 10000);
  }

  lemma LeakCloses(row: Row, now: real, cost: real)
    requires row == LEAKED_RENT && now == 100.0 && cost == 0.99
    ensures ClosingCost(Some(row), true, now) == cost
  {
    LeakNumbers(now - row.ts, row.event.dph, cost);
    ClosingIsExact(row, now, cost);
  }

  lemma OneTargetKilled(inst: Instance, market: Market)
    requires market(inst.id, 0).Succeeds?
    ensures Targets([inst], {inst.id}, Filters(None, None)) == [inst]
    ensures Killed([inst], market, 1) == {inst.id}
  {
    assert [inst][..0] == [] && inst in [inst];
    assert DestroyOutcome(market, inst.id, 0, 1) == WasDestroyed;
  }

  /** A reap whose one listed host is the one leaked id, and goes at the first try. */
  lemma OnlyLeakIsKilled(rows: seq<Row>, inst: Instance, market: Market, now: real, r: Reaped)
    requires Leaked(rows) == {inst.id} && market(inst.id, 0).Succeeds?
    requires r == ReapSpec(rows, [inst], Filters(None, None), market, 1, QUIET, now)
    ensures r.killed == {inst.id} && r.vanished == {}
  {
    OneTargetKilled(inst, market);
    assert rows + QUIET.early + QUIET.late == rows;
    forall id ensures id !in r.vanished {
      assert id in r.vanished ==> id in Leaked(rows) && id !in r.killed;
    }
  }

  ghost predicate LeakedReap(market: Market, r: Reaped) {
    r == ReapSpec([LEAKED_RENT, LEAKED_CLOSE], [Instance(7, 36.0, None, None)], Filters(None, None), market, 1,
                  QUIET, 100.0)
  }

  /** A host whose teardown failed has its cost in the ledger already; killing it later books
      the same time again. Here 99 seconds at $36 an hour, twice. */
  lemma LeakIsBookedTwice(market: Market, r: Reaped)
    requires market(7, 0).Succeeds? && LeakedReap(market, r)
    ensures r.killed == {7} && r.vanished == {}
    ensures IdSpend([LEAKED_RENT, LEAKED_CLOSE], 7, 100.0) == 0.99 && IdSpend(r.rows, 7, 100.0) == 1.98
  {
    var rows := [LEAKED_RENT, LEAKED_CLOSE];
    LeakReads();
    LeakCloses(LEAKED_RENT, 100.0, 0.99);
    OnlyLeakIsKilled(rows, Instance(7, 36.0, None, None), market, 100.0, r);
    assert OpenRows(rows, QUIET) == rows && rows + QUIET.early == rows;
    SpendMoves(rows, [Instance(7, 36.0, None, None)], Filters(None, None), market, 1, QUIET, 100.0, r, 7, 100.0);
    assert OpenBurn(rows, 7, 100.0) == 0.0;
  }
}

/** What a rental costs: the row that closes it, against the times the leg's diary keeps, and what
    closing it does to the spend the cap looks at. */
module FleetBilling {
  import opened Prelude
  import opened Rounding
  import opened Ledger
  import opened Budget
  import opened Sums
  import opened FleetModel
  import opened FleetSafety
  import opened FleetInvariants
  import opened FleetLegs

  // ---- the row a leg's host was rented under

  /** A host past its `rented` row has that row as its last: its own offer's rate, stamped when the
      leg logged it. */
  ghost predicate RentIsLogged(rows: seq<Row>, now: real, p: Phase, d: Diary) {
    p.Holding? && !p.stage.Created? ==>
      && RentRow(rows, p.rental.id) == Some(Row(RoundTo(d.loggedAt, 1000), Rented(p.rental.id, p.rental.offer.dph)))
      && d.loggedAt <= now
  }

  lemma HostStepLogs(w: World, l: nat, act: LegAct, v: World, d: Diary)
    requires l < |w.legs| && w.legs[l].Holding? && HostStep(w, l, act) == Some(v)
    requires RentIsLogged(w.rows, w.now, w.legs[l], d)
    ensures l < |v.legs| && RentIsLogged(v.rows, v.now, v.legs[l], Written(d, w, act, v))
  {
    HostStepAppends(w, l, act, v);
    if v.rows != w.rows {
      AppendRow(w.rows, v.rows[|w.rows|]);
    }
  }

  lemma OwnStepLogs(w: World, l: nat, act: LegAct, v: World, d: Diary)
    requires Step(w, Leg(l, act)) == Some(v) && RentIsLogged(w.rows, w.now, w.legs[l], d)
    ensures l < |v.legs| && RentIsLogged(v.rows, v.now, v.legs[l], Written(d, w, act, v))
  {
    LegStepMoves(w, l, act, v);
    if w.legs[l].Holding? {
      HostStepLogs(w, l, act, v, d);
    }
  }

  lemma OtherRowKeepsLogged(rows: seq<Row>, r: Row, now: real, p: Phase, d: Diary)
    requires RentIsLogged(rows, now, p, d) && (p.Holding? && r.event.Rented? ==> r.event.id != p.rental.id)
    ensures RentIsLogged(rows + [r], now, p, d)
  {
    AppendRow(rows, r);
  }

  /** Another leg's step writes no `rented` row for this leg's host. */
  lemma OtherStepLogs(w: World, k: nat, act: LegAct, v: World, l: nat, d: Diary)
    requires Step(w, Leg(k, act)) == Some(v) && Wired(w) && l < |w.legs| && l != k
    requires RentIsLogged(w.rows, w.now, w.legs[l], d)
    ensures l < |v.legs| && RentIsLogged(v.rows, v.now, v.legs[l], d)
  {
    LegStepMoves(w, k, act, v);
    StepAppendsAtMostOneRow(w, Leg(k, act), v);
    if v.rows != w.rows {
      assert LegWired(w, BooksOf(w.rows), l) && LegWired(w, BooksOf(w.rows), k);
      OtherRowKeepsLogged(w.rows, v.rows[|w.rows|], w.now, w.legs[l], d);
    }
  }

  lemma OuterStepLogs(w: World, a: Action, v: World, l: nat, d: Diary)
    requires Step(w, a) == Some(v) && !a.Leg? && l < |w.legs| && RentIsLogged(w.rows, w.now, w.legs[l], d)
    ensures l < |v.legs| && RentIsLogged(v.rows, v.now, v.legs[l], d)
  {
    OtherStepKeepsLeg(w, a, v, l);
    StepAppendsAtMostOneRow(w, a, v);
    assert v.rows == w.rows && w.now <= v.now;
  }

  lemma {:induction false} RentStaysLogged(states: seq<World>, actions: seq<Action>, i: nat, l: nat)
    requires IsRun(states, actions) && i < |states| && l < |states[i].legs|
    ensures RentIsLogged(states[i].rows, states[i].now, states[i].legs[l], DiaryOf(states, actions, i, l))
  {
    if i > 0 {
      var w, a := states[i - 1], actions[i - 1];
      assert Step(w, a) == Some(states[i]);
      LegCountKept(w, a, states[i]);
      RentStaysLogged(states, actions, i - 1, l);
      RunInv(states, actions, i - 1);
      match a {
        case Leg(k, act) =>
          if k == l {
            OwnStepLogs(w, l, act, states[i], DiaryOf(states, actions, i - 1, l));
          } else {
            OtherStepLogs(w, k, act, states[i], l, DiaryOf(states, actions, i - 1, l));
          }
        case _ => OuterStepLogs(w, a, states[i], l, DiaryOf(states, actions, i - 1, l));
      }
    }
  }

  /** Three acts of a leg write a row, each one row of its own kind about its host, stamped to the
      millisecond; no other step of anything writes to the ledger. */
  lemma StepLogs(w: World, a: Action, v: World)
    requires Step(w, a) == Some(v)
    ensures if a.Leg? && (a.act.LogRented? || a.act.LogRunning? || a.act.LogDestroyed?)
            then w.legs[a.leg].Holding? && |v.rows| == |w.rows| + 1 && v.rows[..|w.rows|] == w.rows
                 && IsLogOf(a.act, w.legs[a.leg].rental, w.now, v.rows[|w.rows|])
            else v.rows == w.rows
  {
    StepAppendsAtMostOneRow(w, a, v);
    if a.Leg? && a.leg < |w.legs| && w.legs[a.leg].Holding? {
      HostStepLogsOne(w, a.leg, a.act, v);
    }
  }

  lemma HostStepLogsOne(w: World, l: nat, act: LegAct, v: World)
    requires l < |w.legs| && w.legs[l].Holding? && HostStep(w, l, act) == Some(v)
    ensures act.LogRented? || act.LogRunning? || act.LogDestroyed? ==>
              |v.rows| == |w.rows| + 1 && IsLogOf(act, w.legs[l].rental, w.now, v.rows[|w.rows|])
    ensures !act.LogRented? && !act.LogRunning? && !act.LogDestroyed? ==> v.rows == w.rows
  {
  }

  predicate IsLogOf(act: LegAct, r: Rental, now: real, row: Row) {
    && row.ts == RoundTo(now, 1000)
    && (act.LogRented? ==> row.event == Rented(r.id, r.offer.dph))
    && (act.LogRunning? ==> row.event == Running(r.id))
    && (act.LogDestroyed? ==> row.event.Destroyed? && row.event.id == r.id)
  }

  // ---- the row that closes a rental

  /** What the `destroyed` row a leg writes must say, by its diary: whether a destroy was confirmed,
      what the listing answered, and a cost within half a hundredth of a cent of the rate times the
      time from entering `rent` to the end of the stay. */
  ghost predicate ClosesAsKept(event: Event, id: Id, dph: real, d: Diary) {
    && event.Destroyed? && event.id == id && !event.reconciled
    && event.torn == ConfirmedBy(d.tried)
    && (event.verify.Unverified? <==> d.relisted.Some? && d.relisted.value.Relist? && !d.relisted.value.answered)
    && Within(event.cost - dph * (d.endAt - d.rentAt) / 3600.0, 0.00005)
  }

  lemma CostIsNear(r: Rental, billed: real)
    ensures Within(EstimatedCost(r, billed) - r.offer.dph * billed / 3600.0, 0.00005)
  {
    RoundToError(r.offer.dph * billed / 3600.0, 10000);
  }

  lemma CloseWrites(w: World, l: nat, v: World, d: Diary)
    requires l < |w.legs| && Step(w, Leg(l, LogDestroyed)) == Some(v) && Agrees(w.legs[l], d)
    ensures w.legs[l].Holding? && |v.rows| == |w.rows| + 1 && v.rows == w.rows + [v.rows[|w.rows|]]
    ensures v.rows[|w.rows|].ts == RoundTo(w.now, 1000) && v.now == w.now
    ensures ClosesAsKept(v.rows[|w.rows|].event, w.legs[l].rental.id, w.legs[l].rental.offer.dph, d)
    ensures d.offer == Some(w.legs[l].rental.offer)
  {
    CostIsNear(w.legs[l].rental, w.legs[l].stage.billed);
  }

  /** In every run, the row a leg writes when it closes a rental is for the host it logged, at the
      rate of the offer it was handed, and says what the diary says. */
  lemma ClosingRowTells(states: seq<World>, actions: seq<Action>, j: nat, l: nat)
    requires IsRun(states, actions) && j < |actions| && actions[j] == Leg(l, LogDestroyed)
    ensures l < |states[j].legs| && states[j].legs[l].Holding? && |states[j + 1].rows| == |states[j].rows| + 1
    ensures var rows, more, d := states[j].rows, states[j + 1].rows, DiaryOf(states, actions, j, l);
            var id, event := states[j].legs[l].rental.id, more[|rows|].event;
            && more == rows + [more[|rows|]] && d.offer.Some? && ClosesAsKept(event, id, d.offer.value.dph, d)
            && RentRow(rows, id) == Some(Row(RoundTo(d.loggedAt, 1000), Rented(id, d.offer.value.dph)))
  {
    assert Step(states[j], actions[j]) == Some(states[j + 1]);
    DiaryAgrees(states, actions, j, l);
    RentStaysLogged(states, actions, j, l);
    CloseWrites(states[j], l, states[j + 1], DiaryOf(states, actions, j, l));
  }

  // ---- what closing does to spend

  lemma StepCosts(w: World, a: Action, v: World)
    requires Step(w, a) == Some(v) && FourDecimalCosts(w.rows)
    ensures FourDecimalCosts(v.rows)
  {
    StepAppendsAtMostOneRow(w, a, v);
    if v.rows != w.rows {
      if a.act.LogDestroyed? {
        RoundToIsMultiple(w.legs[a.leg].rental.offer.dph * w.legs[a.leg].stage.billed / 3600.0, 10000);
      } else {
        assert 0.0 == Units(0, 10000);
      }
    }
  }

  lemma {:induction false} RunCosts(states: seq<World>, actions: seq<Action>, i: nat)
    requires IsRun(states, actions) && i < |states|
    ensures FourDecimalCosts(states[i].rows)
  {
    if i > 0 {
      RunCosts(states, actions, i - 1);
      assert Step(states[i - 1], actions[i - 1]) == Some(states[i]);
      StepCosts(states[i - 1], actions[i - 1], states[i]);
    }
  }

  /** A `destroyed` row for an open rental trades its burn for its cost. */
  lemma ClosingTrades(rows: seq<Row>, row: Row, t: real)
    requires FourDecimalCosts(rows) && FourDecimalCosts(rows + [row])
    requires row.event.Destroyed? && row.event.id in OpenIds(rows)
    ensures Spent(rows + [row], t) - Spent(rows, t) == row.event.cost - Burn(rows, row.event.id, t)
  {
    AppendRow(rows, row);
    SummaryIsExact(rows);
    SummaryIsExact(rows + [row]);
    var id := row.event.id;
    assert OpenIds(rows + [row]) == OpenIds(rows) - {id};
    SumRemove(OpenIds(rows), BurnAt(rows, t), id);
    SumCongruent(OpenIds(rows) - {id}, BurnAt(rows + [row], t), BurnAt(rows, t));
  }

  /** The burn a ledger row stands for, against the unrounded time it was logged at. */
  lemma BurnIsNear(dph: real, loggedAt: real, now: real)
    requires 0.0 <= dph && loggedAt <= now
    ensures Within(Charge(dph, RoundTo(loggedAt, 1000), now) - dph * (now - loggedAt) / 3600.0, dph * 0.0005 / 3600.0)
  {
    RoundToError(loggedAt, 1000);
    var elapsed := Max(0.0, now - RoundTo(loggedAt, 1000));
    var off := elapsed - (now - loggedAt);
    assert -0.0005 <= off <= 0.0005;
    ProductNonNegative(dph, 0.0005 - off);
    ProductNonNegative(dph, 0.0005 + off);
    assert dph * (0.0005 - off) == dph * 0.0005 - dph * off && dph * (0.0005 + off) == dph * 0.0005 + dph * off;
    assert dph * off == dph * elapsed - dph * (now - loggedAt);
  }

  /** At its rate, the delay before the `rented` row less the one before the `destroyed` row. */
  function MoveAtClose(dph: real, now: real, d: Diary): real {
    dph * ((d.loggedAt - d.rentAt) - (now - d.endAt)) / 3600.0
  }

  /** Half the last decimal of a cost, and half a millisecond of a stamp at the rate. */
  function CloseBound(dph: real): real { 0.00005 + dph * 0.0005 / 3600.0 }

  /** In numbers: a cost near its stay and a burn near its count differ by the two delays. */
  lemma MoveIsNear(moved: real, cost: real, burn: real, dph: real, now: real, d: Diary)
    requires moved == cost - burn && Within(cost - dph * (d.endAt - d.rentAt) / 3600.0, 0.00005)
    requires Within(burn - dph * (now - d.loggedAt) / 3600.0, dph * 0.0005 / 3600.0)
    ensures Within(moved - MoveAtClose(dph, now, d), CloseBound(dph))
  {
    DelaysAdd(dph, d.endAt - d.rentAt, now - d.loggedAt);
    assert (d.loggedAt - d.rentAt) - (now - d.endAt) == (d.endAt - d.rentAt) - (now - d.loggedAt);
  }

  lemma DelaysAdd(dph: real, stay: real, counted: real)
    ensures dph * (stay - counted) / 3600.0 == dph * stay / 3600.0 - dph * counted / 3600.0
  {
    assert dph * (stay - counted) == dph * stay - dph * counted;
  }

  lemma ClosingMoves(rows: seq<Row>, row: Row, now: real, id: Id, dph: real, d: Diary)
    requires FourDecimalCosts(rows) && FourDecimalCosts(rows + [row]) && id in OpenIds(rows)
    requires ClosesAsKept(row.event, id, dph, d) && 0.0 <= dph && d.loggedAt <= now
    requires RentRow(rows, id) == Some(Row(RoundTo(d.loggedAt, 1000), Rented(id, dph)))
    ensures Within(Spent(rows + [row], now) - Spent(rows, now) - MoveAtClose(dph, now, d), CloseBound(dph))
  {
    ClosingTrades(rows, row, now);
    NearlyMoves(Spent(rows + [row], now) - Spent(rows, now), row.event, id, dph, now, d);
  }

  lemma NearlyMoves(moved: real, event: Event, id: Id, dph: real, now: real, d: Diary)
    requires ClosesAsKept(event, id, dph, d) && 0.0 <= dph && d.loggedAt <= now
    requires moved == event.cost - Charge(dph, RoundTo(d.loggedAt, 1000), now)
    ensures Within(moved - MoveAtClose(dph, now, d), CloseBound(dph))
  {
    BurnIsNear(dph, d.loggedAt, now);
    MoveIsNear(moved, event.cost, Charge(dph, RoundTo(d.loggedAt, 1000), now), dph, now, d);
  }

  lemma ClosingIsOpen(w: World, l: nat)
    requires Wired(w) && l < |w.legs| && w.legs[l].Holding? && !w.legs[l].stage.Created?
    ensures w.legs[l].rental.id in OpenIds(w.rows)
  {
    assert LegWired(w, BooksOf(w.rows), l);
  }

  /** Closing a rental moves the spend the cap looks at by no more than its roundings and the rate
      times the two delays between what happened and what was logged. */
  lemma ClosingMovesSpent(states: seq<World>, actions: seq<Action>, j: nat, l: nat)
    requires IsRun(states, actions) && j < |actions| && actions[j] == Leg(l, LogDestroyed)
    requires l < |states[j].legs| && states[j].legs[l].Holding? && 0.0 <= states[j].legs[l].rental.offer.dph
    ensures var w, dph := states[j], states[j].legs[l].rental.offer.dph;
            Within(Spent(states[j + 1].rows, w.now) - Spent(w.rows, w.now)
                   - MoveAtClose(dph, w.now, DiaryOf(states, actions, j, l)), CloseBound(dph))
  {
    var w, d := states[j], DiaryOf(states, actions, j, l);
    var dph, id := w.legs[l].rental.offer.dph, w.legs[l].rental.id;
    ClosingRowTells(states, actions, j, l);
    RentStaysLogged(states, actions, j, l);
    CloseIsLogging(states, actions, j, l);
    RunInv(states, actions, j);
    ClosingIsOpen(w, l);
    RunCosts(states, actions, j);
    RunCosts(states, actions, j + 1);
    ClosingMoves(w.rows, states[j + 1].rows[|w.rows|], w.now, id, dph, d);
  }

  lemma CloseIsLogging(states: seq<World>, actions: seq<Action>, j: nat, l: nat)
    requires IsRun(states, actions) && j < |actions| && actions[j] == Leg(l, LogDestroyed)
    ensures l < |states[j].legs| && states[j].legs[l].Holding? && states[j].legs[l].stage.Logging?
    ensures DiaryOf(states, actions, j, l).offer == Some(states[j].legs[l].rental.offer)
  {
    assert Step(states[j], actions[j]) == Some(states[j + 1]);
    DiaryAgrees(states, actions, j, l);
  }

  // ---- the cap check

  /** Undisturbed, the two reads of a check admit exactly what the provider's own check admits:
      spend below the cap. Otherwise the leg raises and halts the run. */
  lemma CheckIsTheCap(w: World, l: nat, v: World, u: World)
    requires Step(w, Leg(l, ReadBooked)) == Some(v) && v.legs[l].Checking? && Step(v, Leg(l, ReadInFlight)) == Some(u)
    ensures w.cfg.cap.Some? && l < |u.legs|
    ensures u.legs[l].Renting? <==> Spent(w.rows, w.now) < w.cfg.cap.value
    ensures u.legs[l] == Raised(true) <==> Spent(w.rows, w.now) >= w.cfg.cap.value
  {
    LegStepMoves(w, l, ReadBooked, v);
    LegStepMoves(v, l, ReadInFlight, u);
  }
}

/** From booked dollars and occupied slots to counted spend: the overshoot bound. */
module FleetOvershoot {
  import opened Prelude
  import opened Sets
  import opened Sums
  import opened Ledger
  import opened Budget
  import opened FleetModel
  import opened FleetSafety
  import opened FleetInvariants
  import opened FleetBudget

  /** The hosts some leg holds past creation: no more ids than legs holding one. */
  lemma {:induction false} HeldIdsCount(legs: seq<Phase>, ids: set<Id>)
    requires forall id :: id in ids ==> HeldPastCreation(legs, id)
    ensures |ids| <= Total(legs, OpenWeight)
  {
    if legs == [] {
      assert ids == {};
    } else {
      var n := |legs| - 1;
      var last := legs[n];
      var rest := if last.Holding? && !last.stage.Created? then ids - {last.rental.id} else ids;
      forall id | id in rest ensures HeldPastCreation(legs[..n], id) {
        assert HeldPastCreation(legs, id);
        var l :| 0 <= l < |legs| && Holds(legs[l], id) && !legs[l].stage.Created?;
        assert legs[..n][l] == legs[l];
      }
      HeldIdsCount(legs[..n], rest);
      assert ids <= rest + (if last.Holding? && !last.stage.Created? then {last.rental.id} else {});
      CardinalityOfUnion(ids, rest, if last.Holding? && !last.stage.Created? then {last.rental.id} else {});
    }
  }

  lemma CardinalityOfUnion(ids: set<Id>, rest: set<Id>, more: set<Id>)
    requires ids <= rest + more
    ensures |ids| <= |rest| + |more|
  {
    SubsetSize(ids, rest + more);
    assert rest + more == rest + (more - rest);
    assert |rest + (more - rest)| == |rest| + |more - rest|;
    SubsetSize(more - rest, more);
  }

  ghost predicate HeldPastCreation(legs: seq<Phase>, id: Id) {
    exists l :: 0 <= l < |legs| && Holds(legs[l], id) && !legs[l].stage.Created?
  }

  lemma OpenIsHeld(w: World, cap: real, lim: Limits, id: Id)
    requires lim.Sane() && Wired(w) && Priced(w, cap, lim) && Timely(w, lim) && id in OpenIds(w.rows)
    ensures HeldPastCreation(w.legs, id)
    ensures 0.0 <= Burn(w.rows, id, w.now) <= lim.Share()
  {
    var b := BooksOf(w.rows);
    assert IdWired(w, b, id);
    var l := w.owner[id];
    assert LegWired(w, b, l) && LegBooked(w.rows, w.legs[l]) && LegPriced(w.legs[l], cap, w.now, lim);
    var row := RentRow(w.rows, id).value;
    BurnWithinShare(row.event.dph, row.ts, w.now, lim);
  }

  ghost predicate WithinCap(spent: real, cap: real, k: nat, share: real) {
    spent == 0.0 || spent < cap + k as real * share
  }

  lemma SpendWithinSlots(w: World, cap: real, lim: Limits)
    requires lim.Sane() && Wired(w) && Priced(w, cap, lim) && Timely(w, lim)
    ensures WithinCap(Spent(w.rows, w.now), cap, w.cfg.maxParallel, lim.Share())
  {
    var share := lim.Share();
    forall id | id in OpenIds(w.rows)
      ensures HeldPastCreation(w.legs, id) && 0.0 <= Burn(w.rows, id, w.now) <= share
    {
      OpenIsHeld(w, cap, lim, id);
    }
    ShareNonNegative(lim);
    CoveredBoundsSpend(w.rows, w.now, w.legs, w.cfg.maxParallel, cap, share);
  }

  /** Spend in numbers: booked, burning, and the rentals that burn. */
  lemma SpendParts(rows: seq<Row>, now: real, legs: seq<Phase>, cap: real, share: real)
      returns (total: real, burning: real, open: nat)
    requires FourDecimalCosts(rows)
    requires forall id :: id in OpenIds(rows) ==> HeldPastCreation(legs, id) && 0.0 <= Burn(rows, id, now) <= share
    ensures total == TotalCost(rows) && Spent(rows, now) == total + burning
    ensures 0.0 <= burning <= open as real * share && open <= Total(legs, SlotOf(cap))
  {
    total, burning, open := TotalCost(rows), InFlight(rows, now), |OpenIds(rows)|;
    assert open <= Total(legs, SlotOf(cap)) by { OpenFitsSlots(rows, legs, cap); }
    assert 0.0 <= burning <= open as real * share by { InFlightWithinShares(rows, now, share); }
    assert Spent(rows, now) == total + burning by { SpentIsTotalPlusBurn(rows, now); }
  }

  lemma CoveredBoundsSpend(rows: seq<Row>, now: real, legs: seq<Phase>, k: nat, cap: real, share: real)
    requires FourDecimalCosts(rows) && 0.0 <= share
    requires Covered(TotalCost(rows), Total(legs, SlotOf(cap)), k, cap, share)
    requires forall id :: id in OpenIds(rows) ==> HeldPastCreation(legs, id) && 0.0 <= Burn(rows, id, now) <= share
    ensures WithinCap(Spent(rows, now), cap, k, share)
  {
    var total, burning, open := SpendParts(rows, now, legs, cap, share);
    SlotsBoundSpend(total, burning, open, Total(legs, SlotOf(cap)), k, cap, share);
  }

  lemma OpenFitsSlots(rows: seq<Row>, legs: seq<Phase>, cap: real)
    requires forall id :: id in OpenIds(rows) ==> HeldPastCreation(legs, id)
    ensures |OpenIds(rows)| <= Total(legs, SlotOf(cap))
  {
    HeldIdsCount(legs, OpenIds(rows));
    TotalBelow(legs, OpenWeight, SlotOf(cap));
  }

  lemma InFlightWithinShares(rows: seq<Row>, now: real, share: real)
    requires forall id :: id in OpenIds(rows) ==> 0.0 <= Burn(rows, id, now) <= share
    ensures 0.0 <= InFlight(rows, now) <= |OpenIds(rows)| as real * share
  {
    SumBounded(OpenIds(rows), BurnAt(rows, now), share);
  }

  lemma SpentIsTotalPlusBurn(rows: seq<Row>, now: real)
    requires FourDecimalCosts(rows)
    ensures Spent(rows, now) == TotalCost(rows) + InFlight(rows, now)
  {
    SummaryIsExact(rows);
  }

  lemma SlotsBoundSpend(total: real, burning: real, open: nat, slots: nat, k: nat, cap: real, share: real)
    requires Covered(total, slots, k, cap, share) && open <= slots && 0.0 <= share
    requires 0.0 <= burning <= open as real * share
    ensures WithinCap(total + burning, cap, k, share)
  {
    TimesMonotone(open, slots, share);
  }

  ghost predicate WithinLimits(states: seq<World>, lim: Limits) {
    forall i :: 0 <= i < |states| ==> PricedOffers(states[i], lim) && Timely(states[i], lim)
  }

  ghost predicate Good(w: World, cap: real, lim: Limits) {
    && Inv(w) && Priced(w, cap, lim)
    && WithinCap(Spent(w.rows, w.now), cap, w.cfg.maxParallel, lim.Share())
  }

  lemma StepGood(w: World, a: Action, v: World, cap: real, lim: Limits)
    requires Step(w, a) == Some(v) && Inv(w) && Priced(w, cap, lim)
    requires lim.Sane() && PricedOffers(v, lim) && Timely(v, lim)
    ensures Good(v, cap, lim)
  {
    StepInv(w, a, v);
    StepPriced(w, a, v, cap, lim);
    SpendWithinSlots(v, cap, lim);
  }

  lemma BeginGood(cfg: Settings, pending: nat, listing: seq<Offer>, cap: real, lim: Limits)
    requires cfg.cap == Some(cap) && lim.Sane()
    ensures Good(Begin(cfg, pending, listing), cap, lim)
  {
    var w := Begin(cfg, pending, listing);
    BeginPriced(cfg, pending, listing, cap, lim);
    BeginInv(cfg, pending, listing);
    assert OpenIds(w.rows) == {};
    SummaryIsExact(w.rows);
    assert Spent(w.rows, w.now) == 0.0;
  }

  /** The overshoot bound. In every interleaving of at most k legs, booked plus in-flight
      spend stays below the cap plus k rental shares. */
  lemma {:induction false} OvershootIsBounded(states: seq<World>, actions: seq<Action>, cap: real, lim: Limits, i: nat)
    requires IsRun(states, actions) && i < |states| && states[0].cfg.cap == Some(cap)
    requires lim.Sane() && WithinLimits(states, lim)
    ensures Good(states[i], cap, lim)
    ensures WithinCap(Spent(states[i].rows, states[i].now), cap, states[i].cfg.maxParallel, lim.Share())
  {
    if i == 0 {
      var cfg, pending, listing :| states[0] == Begin(cfg, pending, listing);
      BeginGood(cfg, pending, listing, cap, lim);
    } else {
      OvershootIsBounded(states, actions, cap, lim, i - 1);
      StepGood(states[i - 1], actions[i - 1], states[i], cap, lim);
    }
  }
}

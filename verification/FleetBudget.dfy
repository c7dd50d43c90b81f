/** How far counted spend can overshoot the cap, over every interleaving. The argument
    needs only the booked half of each check: a leg that has read a booked total below the
    cap holds one of at most k slots until its rental is booked. It therefore survives the
    fact that the two halves of the check are read at different moments. */
module FleetBudget {
  import opened Prelude
  import opened Rounding
  import opened Ledger
  import opened Budget
  import opened FleetModel
  import opened FleetSafety
  import opened FleetInvariants

  /** The rates and durations a caller plans with: at most d dollars an hour, at most t
      seconds from the start of a rental to its `destroyed` row. */
  datatype Limits = Limits(d: real, t: real) {
    ghost predicate Sane() { 0.0 <= d && 0.0 <= t }

    /** One rental's share: t plus the half millisecond of the row's stamp, at d, plus
        half of the last decimal of a booked cost. */
    function Share(): real { d * (t + 0.0005) / 3600.0 + 0.00005 }
  }

  ghost predicate PricedOffers(w: World, lim: Limits) {
    forall o :: o in Concat(w.batches) ==> 0.0 <= o.dph <= lim.d
  }

  ghost predicate Timely(w: World, lim: Limits) {
    forall l :: 0 <= l < |w.legs| ==>
      match w.legs[l]
      case Renting(_, t0) => w.now - t0 <= lim.t
      case Holding(r, _) => w.now - r.t0 <= lim.t
      case _ => true
  }

  /** A leg occupies a slot from the moment it reads a booked total below the cap. */
  function Slot(p: Phase, cap: real): nat {
    match p
    case Checking(_, _, booked) => if booked < cap then 1 else 0
    case Renting(_, _) => 1
    case Holding(_, _) => 1
    case _ => 0
  }

  function SlotOf(cap: real): Phase -> nat { (p: Phase) => Slot(p, cap) }

  function OpenWeight(p: Phase): nat {
    if p.Holding? && !p.stage.Created? then 1 else 0
  }

  /** The invariant of the argument: booked dollars, plus one share per occupied slot. */
  ghost predicate Covered(total: real, slots: nat, k: nat, cap: real, share: real) {
    (slots == 0 && total == 0.0) || total + slots as real * share < cap + k as real * share
  }

  function BilledOf(stage: Stage): real {
    match stage
    case TearingDown(_, billed, _) => billed
    case Verifying(_, billed, _) => billed
    case Logging(_, billed, _, _) => billed
    case _ => 0.0
  }

  ghost predicate LegPriced(p: Phase, cap: real, now: real, lim: Limits) {
    match p
    case HasOffer(o) => 0.0 <= o.dph <= lim.d
    case Checking(o, c, _) => 0.0 <= o.dph <= lim.d && c == cap
    case Renting(o, t0) => 0.0 <= o.dph <= lim.d && t0 <= now
    case Holding(r, stage) =>
      0.0 <= r.offer.dph <= lim.d && r.t0 <= now && 0.0 <= BilledOf(stage) <= lim.t
    case _ => true
  }

  /** A held host's last `rented` row carries its offer's rate and a stamp no earlier than
      the start of the rental, up to rounding. */
  ghost predicate LegBooked(rows: seq<Row>, p: Phase) {
    p.Holding? && !p.stage.Created? ==>
      var row := RentRow(rows, p.rental.id);
      row.Some? && row.value.event.dph == p.rental.offer.dph && p.rental.t0 - 0.0005 <= row.value.ts
  }

  ghost predicate Priced(w: World, cap: real, lim: Limits) {
    && w.cfg.cap == Some(cap)
    && (forall l :: 0 <= l < |w.legs| ==> LegPriced(w.legs[l], cap, w.now, lim) && LegBooked(w.rows, w.legs[l]))
    && FourDecimalCosts(w.rows) && RatesNonNegative(w.rows)
    && Covered(TotalCost(w.rows), Total(w.legs, SlotOf(cap)), w.cfg.maxParallel, cap, lim.Share())
  }

  // ---- arithmetic of slots

  lemma ShareNonNegative(lim: Limits)
    requires lim.Sane()
    ensures 0.0 <= lim.Share()
  {
    ProductNonNegative(lim.d, lim.t + 0.0005);
  }

  lemma TimesSuccessor(n: int, share: real)
    ensures (n + 1) as real * share == n as real * share + share
  {
  }

  lemma TimesMonotone(m: nat, n: nat, share: real)
    requires m <= n && 0.0 <= share
    ensures m as real * share <= n as real * share
  {
  }

  lemma SlotFreed(total: real, more: real, slots: nat, fewer: nat, k: nat, cap: real, share: real)
    requires Covered(total, slots, k, cap, share) && 0.0 <= share && fewer + 1 == slots && more <= share
    ensures Covered(total + more, fewer, k, cap, share)
  {
    TimesSuccessor(fewer, share);
  }

  lemma SlotTaken(total: real, slots: nat, k: nat, cap: real, share: real)
    requires total < cap && slots + 1 <= k && 0.0 <= share
    ensures Covered(total, slots + 1, k, cap, share)
  {
    TimesMonotone(slots + 1, k, share);
  }

  lemma ProductMonotone(x: real, y: real, a: real, b: real)
    requires 0.0 <= x <= a && 0.0 <= y <= b
    ensures 0.0 <= x * y <= a * b
  {
    ProductNonNegative(x, y);
    ProductNonNegative(a - x, y);
    ProductNonNegative(a, b - y);
    assert a * b - x * y == (a - x) * y + a * (b - y);
  }

  lemma BookedWithinShare(r: Rental, billed: real, lim: Limits)
    requires lim.Sane() && 0.0 <= r.offer.dph <= lim.d && 0.0 <= billed <= lim.t
    ensures EstimatedCost(r, billed) <= lim.Share()
    ensures IsMultiple(EstimatedCost(r, billed), 10000)
  {
    var exact := r.offer.dph * billed / 3600.0;
    ProductMonotone(r.offer.dph, billed, lim.d, lim.t + 0.0005);
    RoundToError(exact, 10000);
    RoundToIsMultiple(exact, 10000);
  }

  lemma BurnWithinShare(dph: real, since: real, now: real, lim: Limits)
    requires lim.Sane() && 0.0 <= dph <= lim.d && now - since <= lim.t + 0.0005
    ensures 0.0 <= Charge(dph, since, now) <= lim.Share()
  {
    ProductMonotone(dph, Max(0.0, now - since), lim.d, lim.t + 0.0005);
  }

  // ---- what one step does to the invariant

  lemma LegStepPriced(w: World, l: nat, act: LegAct, v: World, cap: real, lim: Limits)
    requires l < |w.legs| && l < |v.legs| && Step(w, Leg(l, act)) == Some(v)
    requires lim.Sane() && Inv(w) && Priced(w, cap, lim) && PricedOffers(v, lim) && Timely(v, lim)
    ensures LegPriced(v.legs[l], cap, v.now, lim) && v.now == w.now
  {
    assert LegPriced(w.legs[l], cap, w.now, lim);
    if act.GetOffer? {
      HandedOfferIsPriced(w, l, act.listing, v, lim);
    } else if w.legs[l].Holding? {
      HostStepPriced(w, l, act, v, cap, lim);
    }
  }

  lemma HandedOfferIsPriced(w: World, l: nat, listing: Option<seq<Offer>>, v: World, lim: Limits)
    requires l < |w.legs| && v == GetOfferStep(w, l, listing) && OffersWired(w) && PricedOffers(v, lim)
    ensures v.legs[l].HasOffer? ==> 0.0 <= v.legs[l].offer.dph <= lim.d
  {
    PoolGetConserves(PoolOf(w), w.cfg.maxRefills, listing);
    if v.legs[l].HasOffer? {
      assert v.legs[l].offer == v.handed[|v.handed| - 1];
      assert v.legs[l].offer in Concat(v.batches);
    }
  }

  lemma HostStepPriced(w: World, l: nat, act: LegAct, v: World, cap: real, lim: Limits)
    requires l < |w.legs| && w.legs[l].Holding? && HostStep(w, l, act) == Some(v)
    requires lim.Sane() && LegPriced(w.legs[l], cap, w.now, lim) && Timely(v, lim)
    ensures LegPriced(v.legs[l], cap, v.now, lim) && v.now == w.now
  {
    assert v.legs[l].Holding? ==> v.legs[l].rental == w.legs[l].rental;
  }

  /** What the step wrote, if anything: a `rented` row for its own host at its own rate, a
      `running` row, or a `destroyed` row worth at most one share. */
  lemma HostStepWrites(w: World, l: nat, act: LegAct, v: World, cap: real, lim: Limits)
    requires l < |w.legs| && w.legs[l].Holding? && HostStep(w, l, act) == Some(v)
    requires lim.Sane() && LegPriced(w.legs[l], cap, w.now, lim)
    ensures v.rows == w.rows || exists r :: v.rows == w.rows + [r] && WrittenBy(w.legs[l], v.legs[l], r, w.now, lim)
    ensures !v.legs[l].Holding? <==> act.LogDestroyed?
    ensures act.LogDestroyed? ==> Slot(v.legs[l], cap) == 0 && v.rows != w.rows
    ensures v.legs[l].Holding? && w.legs[l].stage.Created? ==> v.rows != w.rows
    ensures v.legs[l].Holding? ==> v.legs[l].rental == w.legs[l].rental && !v.legs[l].stage.Created?
  {
    if act.LogRented? || act.LogRunning? || act.LogDestroyed? {
      var r := v.rows[|w.rows|];
      assert v.rows == w.rows + [r];
      if act.LogDestroyed? {
        BookedWithinShare(w.legs[l].rental, w.legs[l].stage.billed, lim);
      }
      assert WrittenBy(w.legs[l], v.legs[l], r, w.now, lim);
    }
  }

  ghost predicate WrittenBy(p: Phase, q: Phase, r: Row, now: real, lim: Limits) {
    && p.Holding?
    && match r.event
       case Rented(id, dph) =>
         && p.stage.Created? && q.Holding?
         && id == p.rental.id && dph == p.rental.offer.dph && r.ts == RoundTo(now, 1000)
       case Running(id) => !p.stage.Created? && q.Holding?
       case Destroyed(id, _, _, cost, _) =>
         !q.Holding? && cost <= lim.Share() && IsMultiple(cost, 10000)
       case Other => false
  }

  lemma LegStepBooked(w: World, l: nat, act: LegAct, v: World, cap: real, lim: Limits, k: nat)
    requires Step(w, Leg(l, act)) == Some(v) && k < |v.legs|
    requires lim.Sane() && Wired(w) && Priced(w, cap, lim)
    ensures LegBooked(v.rows, v.legs[k])
  {
    LegStepMoves(w, l, act, v);
    assert LegPriced(w.legs[l], cap, w.now, lim) && LegBooked(w.rows, w.legs[l]) && LegBooked(w.rows, w.legs[k]);
    if w.legs[l].Holding? {
      HostStepWrites(w, l, act, v, cap, lim);
      if v.rows != w.rows {
        var r :| v.rows == w.rows + [r] && WrittenBy(w.legs[l], v.legs[l], r, w.now, lim);
        if k == l {
          OwnRowBooks(w.rows, w.legs[l], v.legs[l], r, w.now, lim);
        } else {
          assert LegWired(w, BooksOf(w.rows), l) && LegWired(w, BooksOf(w.rows), k);
          OtherRowKeepsBooked(w.rows, w.legs[k], r);
        }
      }
    } else {
      HostlessStepWritesNothing(w, l, act, v);
    }
  }

  lemma OwnRowBooks(rows: seq<Row>, p: Phase, q: Phase, r: Row, now: real, lim: Limits)
    requires WrittenBy(p, q, r, now, lim) && LegBooked(rows, p) && p.rental.t0 <= now
    requires q.Holding? ==> q.rental == p.rental
    ensures LegBooked(rows + [r], q)
  {
    AppendRow(rows, r);
    RoundToError(now, 1000);
  }

  lemma OtherRowKeepsBooked(rows: seq<Row>, p: Phase, r: Row)
    requires LegBooked(rows, p) && (p.Holding? && r.event.Rented? ==> r.event.id != p.rental.id)
    ensures LegBooked(rows + [r], p)
  {
    AppendRow(rows, r);
  }

  lemma HostlessStepWritesNothing(w: World, l: nat, act: LegAct, v: World)
    requires Step(w, Leg(l, act)) == Some(v) && !w.legs[l].Holding?
    ensures v.rows == w.rows && (v.legs[l].Holding? ==> v.legs[l].stage.Created?)
  {
  }

  /** The slots and the booked total move together. */
  lemma LegStepCovered(w: World, l: nat, act: LegAct, v: World, cap: real, lim: Limits)
    requires Step(w, Leg(l, act)) == Some(v)
    requires lim.Sane() && Inv(w) && Priced(w, cap, lim)
    ensures Covered(TotalCost(v.rows), Total(v.legs, SlotOf(cap)), v.cfg.maxParallel, cap, lim.Share())
    ensures FourDecimalCosts(v.rows) && RatesNonNegative(v.rows)
  {
    LegStepMoves(w, l, act, v);
    TotalUpdate(w.legs, l, v.legs[l], SlotOf(cap));
    TotalAtLeast(w.legs, l, SlotOf(cap));
    ShareNonNegative(lim);
    assert LegPriced(w.legs[l], cap, w.now, lim);
    if w.legs[l].Holding? {
      HostStepCovered(w, l, act, v, cap, lim);
    } else {
      HostlessStepWritesNothing(w, l, act, v);
      HostlessStepCovered(w, l, act, v, cap, lim);
    }
  }

  lemma HostStepCovered(w: World, l: nat, act: LegAct, v: World, cap: real, lim: Limits)
    requires l < |w.legs| && w.legs[l].Holding? && HostStep(w, l, act) == Some(v) && MovesOneLeg(w, l, act, v)
    requires lim.Sane() && Priced(w, cap, lim) && LegPriced(w.legs[l], cap, w.now, lim) && 0.0 <= lim.Share()
    requires Total(v.legs, SlotOf(cap)) + 1 == Total(w.legs, SlotOf(cap)) + Slot(v.legs[l], cap)
    ensures Covered(TotalCost(v.rows), Total(v.legs, SlotOf(cap)), v.cfg.maxParallel, cap, lim.Share())
    ensures FourDecimalCosts(v.rows) && RatesNonNegative(v.rows)
  {
    HostStepWrites(w, l, act, v, cap, lim);
    if v.rows != w.rows {
      var r :| v.rows == w.rows + [r] && WrittenBy(w.legs[l], v.legs[l], r, w.now, lim);
      RowCovered(w.rows, w.legs[l], v.legs[l], r, w.now, cap, lim,
                 Total(w.legs, SlotOf(cap)), Total(v.legs, SlotOf(cap)), w.cfg.maxParallel);
    } else {
      assert Slot(v.legs[l], cap) == 1;
    }
  }

  lemma RowCovered(rows: seq<Row>, p: Phase, q: Phase, r: Row, now: real, cap: real, lim: Limits,
                   slots: nat, after: nat, k: nat)
    requires WrittenBy(p, q, r, now, lim) && LegPriced(p, cap, now, lim) && 0.0 <= lim.Share()
    requires q.Holding? || Slot(q, cap) == 0
    requires after + 1 == slots + Slot(q, cap) && Covered(TotalCost(rows), slots, k, cap, lim.Share())
    requires FourDecimalCosts(rows) && RatesNonNegative(rows)
    ensures Covered(TotalCost(rows + [r]), after, k, cap, lim.Share())
    ensures FourDecimalCosts(rows + [r]) && RatesNonNegative(rows + [r])
  {
    AppendRow(rows, r);
    assert 0.0 == Units(0, 10000);
    if r.event.Destroyed? {
      SlotFreed(TotalCost(rows), r.event.cost, slots, after, k, cap, lim.Share());
    }
  }

  lemma HostlessStepCovered(w: World, l: nat, act: LegAct, v: World, cap: real, lim: Limits)
    requires Step(w, Leg(l, act)) == Some(v) && !w.legs[l].Holding? && MovesOneLeg(w, l, act, v) && v.rows == w.rows
    requires lim.Sane() && Inv(w) && Priced(w, cap, lim) && LegPriced(w.legs[l], cap, w.now, lim) && 0.0 <= lim.Share()
    requires Total(v.legs, SlotOf(cap)) + Slot(w.legs[l], cap) == Total(w.legs, SlotOf(cap)) + Slot(v.legs[l], cap)
    ensures Covered(TotalCost(v.rows), Total(v.legs, SlotOf(cap)), v.cfg.maxParallel, cap, lim.Share())
  {
    var slots, share := Total(w.legs, SlotOf(cap)), lim.Share();
    if Slot(v.legs[l], cap) < Slot(w.legs[l], cap) {
      SlotFreed(TotalCost(w.rows), 0.0, slots, Total(v.legs, SlotOf(cap)), w.cfg.maxParallel, cap, share);
    } else if Slot(v.legs[l], cap) > Slot(w.legs[l], cap) {
      SlotNeedsLowTotal(w, l, act, v, cap, lim);
      TotalGap(w.legs, l, SlotOf(cap), ActiveWeight);
      SlotTaken(TotalCost(w.rows), slots, w.cfg.maxParallel, cap, share);
    }
  }

  /** Only the first half of a check takes a slot, and only below the cap; passing the
      second half means the first was below it too, since burn is never negative. */
  lemma SlotNeedsLowTotal(w: World, l: nat, act: LegAct, v: World, cap: real, lim: Limits)
    requires Step(w, Leg(l, act)) == Some(v) && !w.legs[l].Holding?
    requires Priced(w, cap, lim) && LegPriced(w.legs[l], cap, w.now, lim)
    requires Slot(v.legs[l], cap) > Slot(w.legs[l], cap)
    ensures TotalCost(w.rows) < cap && w.legs[l].HasOffer?
  {
    SummaryIsExact(w.rows);
    InFlightNonNegative(w.rows, w.now);
  }

  lemma StepPriced(w: World, a: Action, v: World, cap: real, lim: Limits)
    requires Step(w, a) == Some(v)
    requires lim.Sane() && Inv(w) && Priced(w, cap, lim) && PricedOffers(v, lim) && Timely(v, lim)
    ensures Priced(v, cap, lim)
  {
    match a {
      case Leg(l, act) =>
        LegStepMoves(w, l, act, v);
        LegStepPriced(w, l, act, v, cap, lim);
        LegStepCovered(w, l, act, v, cap, lim);
        forall k: nat | k < |v.legs| ensures LegPriced(v.legs[k], cap, v.now, lim) && LegBooked(v.rows, v.legs[k]) {
          assert LegPriced(w.legs[k], cap, w.now, lim);
          LegStepBooked(w, l, act, v, cap, lim, k);
        }
      case Main(todo) => MainStepPriced(w, todo, v, cap, lim);
      case Environment(event) => EnvironmentPriced(w, event, v, cap, lim);
    }
  }

  lemma MainStepPriced(w: World, todo: MainAct, v: World, cap: real, lim: Limits)
    requires MainStep(w, todo) == Some(v) && Priced(w, cap, lim)
    ensures Priced(v, cap, lim)
  {
    MainStepMoves(w, todo, v);
    if v.legs != w.legs {
      TotalUpdate(w.legs, w.main.next, Cancelled, SlotOf(cap));
    }
  }

  /** The main thread touches legs only to cancel a queued one. */
  lemma MainStepMoves(w: World, todo: MainAct, v: World)
    requires MainStep(w, todo) == Some(v)
    ensures v.rows == w.rows && v.now == w.now && v.cfg == w.cfg
    ensures v.legs != w.legs ==>
            w.main.Cancelling? && w.main.next < |w.legs| && w.legs[w.main.next].Queued?
            && v.legs == w.legs[w.main.next := Cancelled]
  {
  }

  lemma EnvironmentPriced(w: World, event: EnvAct, v: World, cap: real, lim: Limits)
    requires EnvironmentStep(w, event) == Some(v) && Priced(w, cap, lim)
    ensures Priced(v, cap, lim)
  {
    assert v.rows == w.rows && w.now <= v.now && v.cfg == w.cfg && v.legs == w.legs;
    forall k | 0 <= k < |v.legs| ensures LegPriced(v.legs[k], cap, v.now, lim) && LegBooked(v.rows, v.legs[k]) {
      assert LegPriced(w.legs[k], cap, w.now, lim) && LegBooked(w.rows, w.legs[k]);
    }
  }

  lemma BeginPriced(cfg: Settings, pending: nat, listing: seq<Offer>, cap: real, lim: Limits)
    requires cfg.cap == Some(cap)
    ensures Priced(Begin(cfg, pending, listing), cap, lim)
  {
    TotalOfQueued(pending, SlotOf(cap));
  }
}

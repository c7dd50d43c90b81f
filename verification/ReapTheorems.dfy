/** What a reap repairs, what it leaves alone, and when its grace period is enough. */
module ReapTheorems {
  import opened Prelude
  import opened Rounding
  import opened Ledger
  import opened Budget
  import opened Reap
  import FleetModel
  import FleetTheorems

  ghost function SetOf(ids: seq<Id>): set<Id> { set id | id in ids }

  lemma {:induction false} ClosingRowsClose(rents: seq<Row>, ids: seq<Id>, killed: set<Id>, now: real)
    ensures var rows := ClosingRows(rents, ids, killed, now);
            && Seen(rows) == {} && RentedIds(rows) == {}
            && ClosedIds(rows) == SetOf(ids) && ConfirmedGone(rows) == SetOf(ids)
  {
    if ids != [] {
      var n := |ids| - 1;
      ClosingRowsClose(rents, ids[..n], killed, now);
      AppendRow(ClosingRows(rents, ids[..n], killed, now),
                Row(RoundTo(now, 1000), ClosingEvent(rents, ids[n], ids[n] in killed, now)));
      assert ids == ids[..n] + [ids[n]];
    }
  }

  lemma {:induction false} NoRentalsKeepRentRow(rows: seq<Row>, more: seq<Row>, id: Id)
    requires RentedIds(more) == {}
    ensures RentRow(rows + more, id) == RentRow(rows, id)
  {
    if more == [] {
      assert rows + more == rows;
    } else {
      var n := |more| - 1;
      assert more == more[..n] + [more[n]];
      AppendRow(more[..n], more[n]);
      NoRentalsKeepRentRow(rows, more[..n], id);
      assert rows + more == (rows + more[..n]) + [more[n]];
      AppendRow(rows + more[..n], more[n]);
    }
  }

  ghost function OpenRows(rows: seq<Row>, others: Meanwhile): seq<Row> {
    rows + others.early + others.late
  }

  /** Appending confirmed closures of `ids`, and nothing else. */
  lemma ClosuresOnly(open: seq<Row>, more: seq<Row>, ids: set<Id>)
    requires Seen(more) == {} && RentedIds(more) == {} && ClosedIds(more) == ids && ConfirmedGone(more) == ids
    ensures Leaked(open + more) == Leaked(open) - ids
    ensures OpenIds(open + more) == OpenIds(open) - ids
    ensures forall id :: RentRow(open + more, id) == RentRow(open, id)
    ensures forall id, t :: Burn(open + more, id, t) == Burn(open, id, t)
    ensures forall id :: StampOf(open + more, id) == StampOf(open, id)
  {
    AppendRows(open, more);
    forall id ensures RentRow(open + more, id) == RentRow(open, id) {
      NoRentalsKeepRentRow(open, more, id);
    }
  }

  /** The ledger-scoped reap removes exactly the killed and the vanished from the leaked
      set, and the budget's reading of every other id is untouched, at any later time. */
  lemma RepairIsExact(rows: seq<Row>, live: seq<Instance>, f: Filters, market: Market, retries: nat,
                      others: Meanwhile, now: real, r: Reaped)
    requires r == ReapSpec(rows, live, f, market, retries, others, now)
    ensures Leaked(r.rows) == Leaked(OpenRows(rows, others)) - (r.killed + r.vanished)
    ensures OpenIds(r.rows) == OpenIds(OpenRows(rows, others)) - (r.killed + r.vanished)
    ensures forall id, t :: Burn(r.rows, id, t) == Burn(OpenRows(rows, others), id, t)
    ensures forall id :: StampOf(r.rows, id) == StampOf(OpenRows(rows, others), id)
  {
    var rents, open := rows + others.early, OpenRows(rows, others);
    var more := ClosingRows(rents, r.closed, r.killed, now);
    assert r.closed == Sorted(r.killed) + Sorted(r.vanished) && r.rows == open + more;
    ClosingEffect(open, rents, r.closed, r.killed, r.vanished, now);
  }

  lemma ClosingEffect(open: seq<Row>, rents: seq<Row>, closed: seq<Id>, killed: set<Id>, vanished: set<Id>, now: real)
    requires closed == Sorted(killed) + Sorted(vanished)
    ensures var rows := open + ClosingRows(rents, closed, killed, now);
            && Leaked(rows) == Leaked(open) - (killed + vanished)
            && OpenIds(rows) == OpenIds(open) - (killed + vanished)
            && (forall id, t :: Burn(rows, id, t) == Burn(open, id, t))
            && (forall id :: StampOf(rows, id) == StampOf(open, id))
  {
    ClosingRowsClose(rents, closed, killed, now);
    ClosedIdsAre(closed, killed, vanished);
    ClosuresOnly(open, ClosingRows(rents, closed, killed, now), killed + vanished);
  }

  lemma ClosedIdsAre(closed: seq<Id>, killed: set<Id>, vanished: set<Id>)
    requires closed == Sorted(killed) + Sorted(vanished)
    ensures SetOf(closed) == killed + vanished
  {
  }

  const QUIET := Meanwhile([], [])

  /** A second reap with the same listing and clock, and nothing else writing, targets
      exactly the ids the first one failed to destroy. */
  lemma SecondReapTargetsFailures(rows: seq<Row>, live: seq<Instance>, f: Filters, market: Market,
                                  retries: nat, now: real)
    ensures var first := ReapSpec(rows, live, f, market, retries, QUIET, now);
            IdsOf(Targets(live, Leaked(first.rows), f)) == first.failed - first.killed
  {
    var first := ReapSpec(rows, live, f, market, retries, QUIET, now);
    RepairIsExact(rows, live, f, market, retries, QUIET, now, first);
    assert OpenRows(rows, QUIET) == rows;
    TargetsAfterRepair(live, f, Leaked(rows), first.killed, first.vanished, market, retries);
  }

  /** Taking the killed, and ids that are not listed, out of the leaked set leaves as
      targets those that were tried without success. */
  lemma TargetsAfterRepair(live: seq<Instance>, f: Filters, leaked: set<Id>, killed: set<Id>, vanished: set<Id>,
                           market: Market, retries: nat)
    requires killed == Killed(Targets(live, leaked, f), market, retries) && vanished !! IdsOf(live)
    ensures IdsOf(Targets(live, leaked - (killed + vanished), f))
         == Failed(Targets(live, leaked, f), market, retries) - killed
  {
    var less := leaked - (killed + vanished);
    forall i
      ensures i in Targets(live, leaked, f) <==> i in live && Selected(i, leaked, f)
      ensures i in Targets(live, less, f) <==> i in live && Selected(i, less, f)
    {
      TargetsAreSelected(live, leaked, f, i);
      TargetsAreSelected(live, less, f, i);
    }
    assert forall i :: i in live ==> i.id in IdsOf(live);
  }

  /** If those fail again, the second reap writes nothing at all. */
  lemma SecondReapWritesNothing(rows: seq<Row>, live: seq<Instance>, f: Filters, market: Market, again: Market,
                                retries: nat, now: real)
    requires var first := ReapSpec(rows, live, f, market, retries, QUIET, now);
             ReapSpec(first.rows, live, f, again, retries, QUIET, now).killed == {}
    ensures var first := ReapSpec(rows, live, f, market, retries, QUIET, now);
            var second := ReapSpec(first.rows, live, f, again, retries, QUIET, now);
            second.closed == [] && second.rows == first.rows
  {
    var first := ReapSpec(rows, live, f, market, retries, QUIET, now);
    var second := ReapSpec(first.rows, live, f, again, retries, QUIET, now);
    NothingNewVanished(rows, live, f, market, retries, now);
    assert first.rows + [] == first.rows;
    assert second.vanished == {};
    assert second.closed == [];
  }

  lemma NothingNewVanished(rows: seq<Row>, live: seq<Instance>, f: Filters, market: Market, retries: nat, now: real)
    ensures var first := ReapSpec(rows, live, f, market, retries, QUIET, now);
            Vanished(first.rows, Leaked(first.rows), IdsOf(live), {}, now) == {}
  {
    var first := ReapSpec(rows, live, f, market, retries, QUIET, now);
    RepairIsExact(rows, live, f, market, retries, QUIET, now, first);
    assert OpenRows(rows, QUIET) == rows && rows + [] == rows;
  }

  // ---- the grace period

  /** What a reap meets: the listing it was given and when that was taken, its options and the
      marketplace, and which hosts are live since when. */
  datatype Scene = Scene(
    listing: seq<Instance>, f: Filters, market: Market, retries: nat,
    live: set<Id>, born: map<Id, real>, listedAt: real)

  /** No host is born in the future, the listing misses no live host older than `lag`, rent
      stamps precede creation by at most `skew`, and the reap closes its rows at most `delay`
      after the listing. */
  ghost predicate Honest(rents: seq<Row>, now: real, s: Scene, lag: real, delay: real, skew: real) {
    && (forall id :: id in s.live ==> id in s.born && s.born[id] <= now)
    && (forall id :: id in s.live && s.born[id] < s.listedAt - lag ==> id in IdsOf(s.listing))
    && (forall id :: id in s.live ==> forall row :: RentRow(rents, id) == Some(row) ==> s.born[id] - skew <= row.ts)
    && now - s.listedAt <= delay
  }

  ghost predicate ClosesLive(rows: seq<Row>, others: Meanwhile, now: real, s: Scene) {
    exists id :: id in ReapSpec(rows, s.listing, s.f, s.market, s.retries, others, now).vanished && id in s.live
  }

  /** A reap that reads this ledger closes no live host as vanished, in any honest scene. */
  ghost predicate NeverClosesLive(rows: seq<Row>, others: Meanwhile, now: real, lag: real, delay: real, skew: real) {
    forall s :: Honest(rows + others.early, now, s, lag, delay, skew) ==> !ClosesLive(rows, others, now, s)
  }

  /** A leaked id past the grace period that may still be live: its stamp is within reach of the
      listing's errors, or it had no `rented` row yet when those were read. */
  ghost predicate AtRisk(rents: seq<Row>, open: seq<Row>, now: real, reach: real, id: Id) {
    && id in Leaked(open) && now - StampOf(rents, id) > GRACE
    && (RentRow(rents, id).Some? ==> now - StampOf(rents, id) <= reach)
  }

  lemma OnlyThoseAtRisk(rows: seq<Row>, others: Meanwhile, now: real, lag: real, delay: real, skew: real,
                        s: Scene, id: Id)
    requires Honest(rows + others.early, now, s, lag, delay, skew) && id in s.live
    requires id in ReapSpec(rows, s.listing, s.f, s.market, s.retries, others, now).vanished
    ensures AtRisk(rows + others.early, OpenRows(rows, others), now, lag + delay + skew, id)
  {
  }

  /** An honest scene with one live host, missing from the listing. */
  function MissedHost(id: Id, bornAt: real, listedAt: real): Scene {
    Scene([], Filters(None, None), (x: Id, n: nat) => Succeeds, 1, {id}, map[id := bornAt], listedAt)
  }

  lemma MissedHostIsHonest(rents: seq<Row>, now: real, lag: real, delay: real, skew: real, id: Id)
    requires 0.0 <= lag && 0.0 <= delay
    requires RentRow(rents, id).Some? ==> now - StampOf(rents, id) <= lag + delay + skew
    ensures Honest(rents, now, MissedHost(id, now - delay - lag, now - delay), lag, delay, skew)
  {
  }

  lemma MissedHostVanishes(rows: seq<Row>, others: Meanwhile, now: real, id: Id, bornAt: real, listedAt: real)
    requires id in Leaked(OpenRows(rows, others)) && now - StampOf(rows + others.early, id) > GRACE
    ensures ClosesLive(rows, others, now, MissedHost(id, bornAt, listedAt))
  {
    var s := MissedHost(id, bornAt, listedAt);
    var killed := Killed(Targets(s.listing, Leaked(rows), s.f), s.market, s.retries);
    assert killed == {} && IdsOf(s.listing) == {};
    assert id in Vanished(rows + others.early, Leaked(OpenRows(rows, others)), IdsOf(s.listing), killed, now);
  }

  lemma RiskIsReal(rows: seq<Row>, others: Meanwhile, now: real, lag: real, delay: real, skew: real, id: Id)
    requires 0.0 <= lag && 0.0 <= delay
    requires AtRisk(rows + others.early, OpenRows(rows, others), now, lag + delay + skew, id)
    ensures !NeverClosesLive(rows, others, now, lag, delay, skew)
  {
    MissedHostIsHonest(rows + others.early, now, lag, delay, skew, id);
    MissedHostVanishes(rows, others, now, id, now - delay - lag, now - delay);
  }

  ghost predicate NobodyAtRisk(rents: seq<Row>, open: seq<Row>, now: real, reach: real) {
    forall id :: !AtRisk(rents, open, now, reach, id)
  }

  lemma SceneClosesNobody(rows: seq<Row>, others: Meanwhile, now: real, lag: real, delay: real, skew: real, s: Scene)
    requires NobodyAtRisk(rows + others.early, OpenRows(rows, others), now, lag + delay + skew)
    requires Honest(rows + others.early, now, s, lag, delay, skew)
    ensures !ClosesLive(rows, others, now, s)
  {
    forall id | id in ReapSpec(rows, s.listing, s.f, s.market, s.retries, others, now).vanished ensures id !in s.live {
      if id in s.live {
        OnlyThoseAtRisk(rows, others, now, lag, delay, skew, s, id);
        assert false;
      }
    }
  }

  /** For every ledger, whatever was appended during the reap, and every clock: no live host is
      closed as vanished in any honest scene if and only if no id is at risk. */
  lemma GraceIsExact(rows: seq<Row>, others: Meanwhile, now: real, lag: real, delay: real, skew: real)
    requires 0.0 <= lag && 0.0 <= delay && 0.0 <= skew
    ensures NeverClosesLive(rows, others, now, lag, delay, skew)
       <==> NobodyAtRisk(rows + others.early, OpenRows(rows, others), now, lag + delay + skew)
  {
    var rents, open, reach := rows + others.early, OpenRows(rows, others), lag + delay + skew;
    if NobodyAtRisk(rents, open, now, reach) {
      forall s | Honest(rents, now, s, lag, delay, skew) ensures !ClosesLive(rows, others, now, s) {
        SceneClosesNobody(rows, others, now, lag, delay, skew, s);
      }
    } else {
      var id :| AtRisk(rents, open, now, reach, id);
      RiskIsReal(rows, others, now, lag, delay, skew, id);
    }
  }

  /** No id was first sighted between the read of the rent rows and the read of the leaked set. */
  ghost predicate OneRead(rows: seq<Row>, others: Meanwhile) {
    Leaked(OpenRows(rows, others)) <= RentedIds(rows + others.early)
  }

  /** Within the 120 seconds only the two reads matter: a host rented between them has no stamp,
      counts as ancient and is closed while it is live, at any lag, delay and skew. */
  lemma RentBetweenReadsIsClosed(rows: seq<Row>, others: Meanwhile, now: real, lag: real, delay: real, skew: real)
    requires 0.0 <= lag && 0.0 <= delay && 0.0 <= skew && lag + delay + skew <= GRACE < now
    ensures NeverClosesLive(rows, others, now, lag, delay, skew) <==> OneRead(rows, others)
  {
    var rents, open := rows + others.early, OpenRows(rows, others);
    GraceIsExact(rows, others, now, lag, delay, skew);
    if !OneRead(rows, others) {
      var id :| id in Leaked(open) && id !in RentedIds(rents);
      assert AtRisk(rents, open, now, lag + delay + skew, id);
    }
  }

  /** With consistent reads the 120 seconds cover exactly the listing lag, the time since the
      listing and the stamp skew together. */
  lemma GraceCoversTheSum(lag: real, delay: real, skew: real)
    requires 0.0 <= lag && 0.0 <= delay && 0.0 <= skew
    ensures lag + delay + skew <= GRACE
       <==> forall rows, others, now :: OneRead(rows, others) ==> NeverClosesLive(rows, others, now, lag, delay, skew)
  {
    if lag + delay + skew <= GRACE {
      forall rows, others, now | OneRead(rows, others) ensures NeverClosesLive(rows, others, now, lag, delay, skew) {
        GraceIsExact(rows, others, now, lag, delay, skew);
      }
    } else {
      var rows := OldestBeyondReach(lag + delay + skew);
      assert rows + QUIET.early == rows && OpenRows(rows, QUIET) == rows;
      assert AtRisk(rows, rows, 0.0, lag + delay + skew, 7);
      RiskIsReal(rows, QUIET, 0.0, lag, delay, skew, 7);
      assert OneRead(rows, QUIET);
    }
  }

  /** One rental, as old as the errors reach. */
  lemma OldestBeyondReach(reach: real) returns (rows: seq<Row>)
    requires reach > GRACE
    ensures Leaked(rows) == {7} == RentedIds(rows) && RentRow(rows, 7).Some? && StampOf(rows, 7) == 0.0 - reach
  {
    var row := Row(0.0 - reach, Rented(7, 1.0));
    rows := [row];
    AppendRow([], row);
    assert [] + [row] == rows;
  }

  // ---- after a crash

  /** Whatever interleaving the driver died in, a reap over a complete listing whose
      destroys all go through leaves live only the hosts that never reached the ledger. */
  lemma ReapRecoversFromCrash(states: seq<FleetModel.World>, actions: seq<FleetModel.Action>, i: nat,
                              live: seq<Instance>, market: Market, retries: nat, now: real, id: Id)
    requires FleetModel.IsRun(states, actions) && i < |states| && retries > 0
    requires IdsOf(live) == states[i].live && forall x :: market(x, 0).Succeeds?
    requires id in states[i].live
    ensures var r := ReapSpec(states[i].rows, live, Filters(None, None), market, retries, QUIET, now);
            id !in r.killed ==> FleetTheorems.InCreateGap(states[i], id) || id in states[i].unreported
  {
    var w := states[i];
    var f := Filters(None, None);
    FleetTheorems.LiveHostsAreReapable(states, actions, i, id);
    if id in Leaked(w.rows) {
      var inst :| inst in live && inst.id == id;
      TargetsAreSelected(live, Leaked(w.rows), f, inst);
      assert DestroyOutcome(market, id, 0, retries) == WasDestroyed;
      assert inst in Targets(live, Leaked(w.rows), f);
    }
  }
}

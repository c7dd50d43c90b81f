/** The fleet's promises, for every interleaving and every crash point: `states[i]` is
    what a crash after i actions leaves behind. */
module FleetTheorems {
  import opened Prelude
  import opened Ledger
  import opened FleetModel
  import opened FleetSafety
  import opened FleetInvariants

  /** The create call answered, and the leg died or has not yet reached the ledger. */
  ghost predicate InCreateGap(w: World, id: Id) {
    exists l :: 0 <= l < |w.legs| && w.legs[l].Holding? && w.legs[l].stage.Created? && w.legs[l].rental.id == id
  }

  /** Every host still billing is in the reaper's suspect set, with exactly two kinds of
      exception: one whose `rented` row was not written yet, and one the server created
      although the create call reported failure. */
  lemma LiveHostsAreReapable(states: seq<World>, actions: seq<Action>, i: nat, id: Id)
    requires IsRun(states, actions) && i < |states| && id in states[i].live
    ensures id in RentedIds(states[i].rows) ==> id in Leaked(states[i].rows)
    ensures id !in Leaked(states[i].rows) <==> InCreateGap(states[i], id) || id in states[i].unreported
  {
    RunInv(states, actions, i);
    var w := states[i];
    var b := BooksOf(w.rows);
    assert IdWired(w, b, id);
    if InCreateGap(w, id) {
      var l :| 0 <= l < |w.legs| && w.legs[l].Holding? && w.legs[l].stage.Created? && w.legs[l].rental.id == id;
      assert LegWired(w, b, l);
    }
    if id !in b.rented && id !in w.unreported {
      assert w.legs[w.owner[id]].rental.id == id;
    }
  }

  /** A teardown that could not be confirmed surfaces as that leg's one final result, a
      typed LEAK, and nothing else produces one. A leg leaves at most one such host. */
  lemma LeaksAreNeverMasked(states: seq<World>, actions: seq<Action>, i: nat, l: nat)
    requires IsRun(states, actions) && i < |states| && l < |states[i].legs|
    ensures states[i].legs[l] == Done(LEAK_RESULT)
        <==> exists id :: id in UnconfirmedIds(states[i].rows) && id in states[i].owner && states[i].owner[id] == l
    ensures forall x, y | x in UnconfirmedIds(states[i].rows) && y in UnconfirmedIds(states[i].rows) ::
              x in states[i].owner && y in states[i].owner && (states[i].owner[x] == states[i].owner[y] ==> x == y)
  {
    RunInv(states, actions, i);
    var w := states[i];
    var bad := UnconfirmedIds(w.rows);
    assert LeakLegExplained(w, bad, l);
    forall id | id in bad ensures LeakIdReported(w, bad, id) {
    }
  }

  /** Destroy reported success, and the listing that should have confirmed it failed. */
  ghost function UnverifiedIds(rows: seq<Row>): set<Id> {
    set r | r in rows && r.event.Destroyed? && r.event.torn && r.event.verify.Unverified? :: r.event.id
  }

  /** A leg that finished without reporting a leak, or that has moved on to another offer,
      leaves no host billing, apart from the unverifiable teardown and the lost create. */
  lemma OnlyReportedHostsStayLive(states: seq<World>, actions: seq<Action>, i: nat, id: Id)
    requires IsRun(states, actions) && i < |states|
    requires id in states[i].live && id in states[i].owner && states[i].owner[id] < |states[i].legs|
    requires !Holds(states[i].legs[states[i].owner[id]], id)
    requires states[i].legs[states[i].owner[id]] != Done(LEAK_RESULT)
    ensures id in UnverifiedIds(states[i].rows) || id in states[i].unreported
  {
    RunInv(states, actions, i);
    var w := states[i];
    assert IdWired(w, BooksOf(w.rows), id);
    assert LeakIdReported(w, UnconfirmedIds(w.rows), id);
    if id !in w.unreported {
      var r :| r in w.rows && r.event.Destroyed? && r.event.id == id;
      assert r.event.verify.Gone? ==> id in ConfirmedGone(w.rows);
      assert IsUnconfirmed(r.event) ==> id in UnconfirmedIds(w.rows);
    }
  }

  /** The tracked set is exactly the hosts of legs between track and untrack, and since
      ids are never shared there is at most one per leg. */
  lemma TrackedIsExact(states: seq<World>, actions: seq<Action>, i: nat, id: Id)
    requires IsRun(states, actions) && i < |states|
    ensures id in states[i].tracked <==>
            exists l :: 0 <= l < |states[i].legs| && Holds(states[i].legs[l], id) && states[i].legs[l].stage.Working?
    ensures forall l, k | 0 <= l < |states[i].legs| && 0 <= k < |states[i].legs| ::
              Holds(states[i].legs[l], id) && Holds(states[i].legs[k], id) ==> l == k
  {
    RunInv(states, actions, i);
    var w := states[i];
    var b := BooksOf(w.rows);
    assert IdWired(w, b, id);
    forall l | 0 <= l < |w.legs| && Holds(w.legs[l], id) ensures id in w.owner && w.owner[id] == l {
      assert LegWired(w, b, l);
    }
  }

  /** However the run ends, every leg is joined, nothing is tracked, and the closing sweep
      found nothing to destroy; a normal return has one result for every leg, its own. */
  lemma EndIsClean(states: seq<World>, actions: seq<Action>, i: nat)
    requires IsRun(states, actions) && i < |states| && states[i].main.Ended?
    ensures forall l :: 0 <= l < |states[i].legs| ==> Settled(states[i].legs[l])
    ensures states[i].tracked == {} && states[i].stranded == {}
    ensures states[i].main.why.Normal? ==>
            forall l :: 0 <= l < |states[i].legs| ==>
              l in states[i].results && states[i].legs[l] == Done(states[i].results[l])
  {
    RunInv(states, actions, i);
    var w := states[i];
    forall id ensures id !in w.tracked {
      assert IdWired(w, BooksOf(w.rows), id);
    }
  }

  lemma HaltIsFinal(w: World, a: Action, v: World)
    requires Step(w, a) == Some(v) && (w.main == Joining(Halted) || w.main == Ended(Halted))
    ensures v.main == Joining(Halted) || v.main == Ended(Halted)
  {
    match a {
      case Leg(l, act) => LegStepMoves(w, l, act, v);
      case _ =>
    }
  }

  lemma {:induction false} StaysHalted(states: seq<World>, actions: seq<Action>, i: nat, j: nat)
    requires IsRun(states, actions) && i <= j < |states| && states[i].main == Joining(Halted)
    ensures states[j].main == Joining(Halted) || states[j].main == Ended(Halted)
    decreases j - i
  {
    if i < j {
      StaysHalted(states, actions, i, j - 1);
      assert Step(states[j - 1], actions[j - 1]) == Some(states[j]);
      HaltIsFinal(states[j - 1], actions[j - 1], states[j]);
    }
  }

  /** Once the budget halt has finished its cancel pass, no queued leg ever starts. */
  lemma HaltStartsNothing(states: seq<World>, actions: seq<Action>, i: nat, j: nat, l: nat)
    requires IsRun(states, actions) && i <= j < |actions| && states[i].main == Joining(Halted)
    ensures actions[j] != Leg(l, Start)
  {
    StaysHalted(states, actions, i, j);
    RunInv(states, actions, j);
    assert Step(states[j], actions[j]) == Some(states[j + 1]);
    assert MainPhaseOk(states[j].legs, states[j].main, states[j].results);
    if actions[j] == Leg(l, Start) {
      LegStepMoves(states[j], l, Start, states[j + 1]);
    }
  }

  /** Offers are conserved, refills are bounded, and every entry into `rent` uses up one offer
      that was handed out: attempts, refused and failed ones included, and offers still in hand
      add up to the offers handed out, and no instance is created without an attempt. */
  lemma OffersAreConserved(states: seq<World>, actions: seq<Action>, i: nat)
    requires IsRun(states, actions) && i < |states|
    ensures Concat(states[i].batches) == states[i].handed + states[i].queue
    ensures |states[i].batches| <= 1 + states[i].cfg.maxRefills
    ensures RentAttempts(actions[..i]) + Total(states[i].legs, OfferWeight) == |states[i].handed|
    ensures states[i].nextId <= RentAttempts(actions[..i]) <= |Concat(states[i].batches)|
  {
    RunInv(states, actions, i);
    RunAttempts(states, actions, i);
    TotalBelow(states[i].legs, OfferWeight, PreCreateWeight);
  }
}

/** Leak reporting, main-thread bookkeeping and offer conservation, step by step. */
module FleetInvariants {
  import opened Prelude
  import opened Rounding
  import opened Ledger
  import opened FleetModel
  import opened FleetSafety

  // ---- weights over legs

  lemma {:induction false} TotalUpdate(legs: seq<Phase>, l: nat, p: Phase, weight: Phase -> nat)
    requires l < |legs|
    ensures Total(legs[l := p], weight) + weight(legs[l]) == Total(legs, weight) + weight(p)
  {
    var n := |legs| - 1;
    if l == n {
      assert legs[l := p][..n] == legs[..n];
    } else {
      assert legs[l := p][..n] == legs[..n][l := p];
      TotalUpdate(legs[..n], l, p, weight);
    }
  }

  lemma {:induction false} TotalAtLeast(legs: seq<Phase>, l: nat, weight: Phase -> nat)
    requires l < |legs|
    ensures weight(legs[l]) <= Total(legs, weight)
  {
    var n := |legs| - 1;
    if l < n {
      TotalAtLeast(legs[..n], l, weight);
    }
  }

  /** One weight below another everywhere, with a known gap at one leg. */
  lemma {:induction false} TotalGap(legs: seq<Phase>, l: nat, low: Phase -> nat, high: Phase -> nat)
    requires l < |legs| && forall p :: low(p) <= high(p)
    ensures Total(legs, low) + high(legs[l]) <= Total(legs, high) + low(legs[l])
  {
    var n := |legs| - 1;
    if l < n {
      TotalGap(legs[..n], l, low, high);
    } else {
      TotalBelow(legs[..n], low, high);
    }
  }

  lemma {:induction false} TotalBelow(legs: seq<Phase>, low: Phase -> nat, high: Phase -> nat)
    requires forall p :: low(p) <= high(p)
    ensures Total(legs, low) <= Total(legs, high)
  {
    if legs != [] {
      TotalBelow(legs[..|legs| - 1], low, high);
    }
  }

  lemma {:induction false} TotalOfQueued(n: nat, weight: Phase -> nat)
    ensures Total(seq(n, _ => Queued), weight) == n * weight(Queued)
  {
    if n > 0 {
      assert seq(n, _ => Queued)[..n - 1] == seq(n - 1, _ => Queued);
      TotalOfQueued(n - 1, weight);
      assert n * weight(Queued) == (n - 1) * weight(Queued) + weight(Queued);
    }
  }

  // ---- leaks

  /** A teardown that failed, or that the listing contradicted. */
  ghost predicate IsUnconfirmed(e: Event) {
    e.Destroyed? && (!e.torn || e.verify.Present?)
  }

  ghost function UnconfirmedIds(rows: seq<Row>): set<Id> {
    set r | r in rows && IsUnconfirmed(r.event) :: r.event.id
  }

  const LEAK_RESULT := LegResult(LEAK, true)

  ghost predicate LeakIdReported(w: World, bad: set<Id>, id: Id) {
    id in bad ==>
      && id in w.owner && w.owner[id] < |w.legs| && w.legs[w.owner[id]] == Done(LEAK_RESULT)
      && forall other :: other in bad && other in w.owner && w.owner[other] == w.owner[id] ==> other == id
  }

  ghost predicate LeakLegExplained(w: World, bad: set<Id>, l: nat)
    requires l < |w.legs|
  {
    w.legs[l] == Done(LEAK_RESULT) ==> exists id :: id in bad && id in w.owner && w.owner[id] == l
  }

  ghost predicate LeaksWith(w: World, bad: set<Id>) {
    && (forall id :: LeakIdReported(w, bad, id))
    && (forall l :: 0 <= l < |w.legs| ==> LeakLegExplained(w, bad, l))
  }

  ghost predicate LeaksReported(w: World) {
    LeaksWith(w, UnconfirmedIds(w.rows))
  }

  ghost function BadAfter(bad: set<Id>, w: World, v: World): set<Id> {
    if |v.rows| <= |w.rows| then bad
    else
      var e := v.rows[|w.rows|].event;
      if IsUnconfirmed(e) then bad + {e.id} else bad
  }

  lemma BadFollowsRows(w: World, a: Action, v: World)
    requires Step(w, a) == Some(v)
    ensures UnconfirmedIds(v.rows) == BadAfter(UnconfirmedIds(w.rows), w, v)
  {
    StepAppendsAtMostOneRow(w, a, v);
    if v.rows != w.rows {
      var r :| v.rows == w.rows + [r];
      assert forall q :: q in v.rows <==> q in w.rows || q == r;
    }
  }

  lemma LegStepLeaks(w: World, b: Books, bad: set<Id>, l: nat, act: LegAct, v: World, worse: set<Id>)
    requires WiredWith(w, b) && LeaksWith(w, bad)
    requires Step(w, Leg(l, act)) == Some(v) && worse == BadAfter(bad, w, v)
    ensures LeaksWith(v, worse)
  {
    assert LegWired(w, b, l);
    forall id ensures LeakIdReported(v, worse, id) {
      assert LeakIdReported(w, bad, id);
      assert IdWired(w, b, w.nextId);
      forall other | other in worse && other in bad ensures LeakIdReported(w, bad, other) {
      }
    }
    forall k | 0 <= k < |v.legs| ensures LeakLegExplained(v, worse, k) {
      assert LeakLegExplained(w, bad, k);
      if v.legs[k] == Done(LEAK_RESULT) {
        if w.legs[k] == Done(LEAK_RESULT) {
          var id :| id in bad && id in w.owner && w.owner[id] == k;
          assert IdWired(w, b, w.nextId);
          assert id in worse && id in v.owner && v.owner[id] == k;
        } else {
          var id := w.legs[k].rental.id;
          assert id in worse && id in v.owner && v.owner[id] == k;
        }
      }
    }
  }

  lemma StepLeaks(w: World, a: Action, v: World)
    requires Wired(w) && LeaksReported(w) && Step(w, a) == Some(v)
    ensures LeaksReported(v)
  {
    BadFollowsRows(w, a, v);
    var bad := UnconfirmedIds(w.rows);
    match a {
      case Leg(l, act) => LegStepLeaks(w, BooksOf(w.rows), bad, l, act, v, UnconfirmedIds(v.rows));
      case _ => OtherStepLeaks(w, bad, a, v);
    }
  }

  lemma OtherStepLeaks(w: World, bad: set<Id>, a: Action, v: World)
    requires LeaksWith(w, bad) && !a.Leg? && Step(w, a) == Some(v)
    ensures LeaksWith(v, bad)
  {
    forall id ensures LeakIdReported(v, bad, id) {
      assert LeakIdReported(w, bad, id);
    }
    forall k | 0 <= k < |v.legs| ensures LeakLegExplained(v, bad, k) {
      assert LeakLegExplained(w, bad, k);
    }
  }

  // ---- the main thread

  ghost predicate ResultsMatch(legs: seq<Phase>, results: map<nat, LegResult>) {
    forall l :: l in results ==> l < |legs| && legs[l] == Done(results[l])
  }

  ghost predicate NoneQueuedBelow(legs: seq<Phase>, bound: nat) {
    forall l :: 0 <= l < |legs| && l < bound ==> !legs[l].Queued?
  }

  /** What has been established by the time the main thread is where it is. */
  ghost predicate MainPhaseOk(legs: seq<Phase>, main: MainPhase, results: map<nat, LegResult>) {
    match main
    case Collecting => forall l :: 0 <= l < |legs| ==> !legs[l].Cancelled?
    case Cancelling(next) => NoneQueuedBelow(legs, next)
    case Joining(why) =>
      && (why.Halted? ==> NoneQueuedBelow(legs, |legs|))
      && (why.Normal? ==> forall l :: 0 <= l < |legs| ==> l in results)
    case Ended(why) =>
      && (forall l :: 0 <= l < |legs| ==> Settled(legs[l]))
      && (why.Normal? ==> forall l :: 0 <= l < |legs| ==> l in results)
  }

  ghost predicate WithinLimit(legs: seq<Phase>, cfg: Settings) {
    Total(legs, ActiveWeight) <= cfg.maxParallel
  }

  ghost predicate MainWired(w: World) {
    ResultsMatch(w.legs, w.results) && MainPhaseOk(w.legs, w.main, w.results) && WithinLimit(w.legs, w.cfg)
  }

  /** What a leg's step can do to its own phase and to the rest of the world. */
  ghost predicate MovesOneLeg(w: World, l: nat, act: LegAct, v: World)
    requires l < |w.legs|
  {
    && |v.legs| == |w.legs| && v.legs == w.legs[l := v.legs[l]]
    && v.main == w.main && v.results == w.results && v.cfg == w.cfg
    && !Settled(w.legs[l])
    && !v.legs[l].Queued? && !v.legs[l].Cancelled?
    && (act.Start? <==> w.legs[l].Queued?)
    && (act.Start? ==> v.legs[l] == AtPool && Total(w.legs, ActiveWeight) < w.cfg.maxParallel)
    && (act.GetOffer? ==> w.legs[l].AtPool? && v == GetOfferStep(w, l, act.listing))
    && (!act.GetOffer? ==> PoolOf(v) == PoolOf(w))
    && v.nextId + PreCreateWeight(v.legs[l])
       <= w.nextId + PreCreateWeight(w.legs[l]) + |v.handed| - |w.handed|
  }

  lemma HostStepMoves(w: World, l: nat, act: LegAct, v: World)
    requires l < |w.legs| && w.legs[l].Holding? && HostStep(w, l, act) == Some(v)
    ensures MovesOneLeg(w, l, act, v)
  {
  }

  lemma LegStepMoves(w: World, l: nat, act: LegAct, v: World)
    requires Step(w, Leg(l, act)) == Some(v)
    ensures MovesOneLeg(w, l, act, v)
  {
    if w.legs[l].Holding? {
      HostStepMoves(w, l, act, v);
    }
  }

  /** Only `Start` raises the number of active legs, and it looks at the limit first. */
  lemma LegStepMain(w: World, l: nat, act: LegAct, v: World)
    requires MainWired(w) && l < |w.legs| && MovesOneLeg(w, l, act, v)
    ensures MainWired(v)
  {
    TotalUpdate(w.legs, l, v.legs[l], ActiveWeight);
  }

  lemma StepMain(w: World, a: Action, v: World)
    requires MainWired(w) && Step(w, a) == Some(v)
    ensures MainWired(v)
  {
    match a {
      case Leg(l, act) =>
        LegStepMoves(w, l, act, v);
        LegStepMain(w, l, act, v);
      case Main(todo) =>
        if todo.CancelNext? && v.legs != w.legs {
          CancelMain(w, v);
        } else {
          CollectMain(w, todo, v);
        }
      case Environment(event) => EnvironmentMain(w, event, v);
    }
  }

  lemma EnvironmentMain(w: World, event: EnvAct, v: World)
    requires MainWired(w) && EnvironmentStep(w, event) == Some(v)
    ensures MainWired(v)
  {
    assert v.legs == w.legs && v.main == w.main && v.results == w.results && v.cfg == w.cfg;
  }

  lemma CancelMain(w: World, v: World)
    requires MainWired(w) && MainStep(w, CancelNext) == Some(v) && v.legs != w.legs
    ensures MainWired(v)
  {
    TotalUpdate(w.legs, w.main.next, Cancelled, ActiveWeight);
  }

  lemma CollectMain(w: World, todo: MainAct, v: World)
    requires MainWired(w) && MainStep(w, todo) == Some(v) && v.legs == w.legs
    ensures MainWired(v)
  {
    assert v.cfg == w.cfg;
    CollectResults(w, todo, v);
    CollectPhase(w, todo, v);
  }

  lemma CollectResults(w: World, todo: MainAct, v: World)
    requires ResultsMatch(w.legs, w.results) && MainStep(w, todo) == Some(v) && v.legs == w.legs
    ensures ResultsMatch(v.legs, v.results)
  {
  }

  lemma CollectPhase(w: World, todo: MainAct, v: World)
    requires MainPhaseOk(w.legs, w.main, w.results) && MainStep(w, todo) == Some(v) && v.legs == w.legs
    ensures MainPhaseOk(v.legs, v.main, v.results)
  {
  }

  // ---- offers

  function Concat(batches: seq<seq<Offer>>): seq<Offer> {
    if batches == [] then []
    else Concat(batches[..|batches| - 1]) + batches[|batches| - 1]
  }

  /** Everything ever listed was either handed out, in order, or is still queued. */
  ghost predicate PoolConserves(p: Pool, maxRefills: nat) {
    && Concat(p.batches) == p.handed + p.queue
    && |p.batches| <= 1 + p.refills
    && p.refills <= maxRefills
  }

  lemma PoolGetConserves(p: Pool, maxRefills: nat, listing: Option<seq<Offer>>)
    requires PoolConserves(p, maxRefills)
    ensures PoolConserves(PoolGet(p, maxRefills, listing).0, maxRefills)
    ensures var (q, got) := PoolGet(p, maxRefills, listing);
            q.handed == p.handed + if got.Offered? then [got.offer] else []
  {
    if p.queue == [] && p.refills < maxRefills && listing.Some? {
      assert (p.batches + [listing.value])[..|p.batches|] == p.batches;
    }
  }

  /** Legs that took an offer from the pool and have not created an instance with it. */
  function PreCreateWeight(p: Phase): nat {
    if p.HasOffer? || p.Checking? || p.Renting? then 1 else 0
  }

  /** Legs that took an offer and have not entered the provider's `rent` with it. */
  function OfferWeight(p: Phase): nat { if p.HasOffer? then 1 else 0 }

  function AttemptOf(a: Action): nat { if a.Leg? && a.act.ReadBooked? then 1 else 0 }

  /** How often `rent` was entered, whatever came of it. */
  function RentAttempts(actions: seq<Action>): nat {
    if actions == [] then 0
    else RentAttempts(actions[..|actions| - 1]) + AttemptOf(actions[|actions| - 1])
  }

  lemma LegStepAttempts(w: World, l: nat, act: LegAct, v: World)
    requires Step(w, Leg(l, act)) == Some(v)
    ensures |w.handed| + OfferWeight(v.legs[l]) + AttemptOf(Leg(l, act)) == |v.handed| + OfferWeight(w.legs[l])
  {
    if w.legs[l].Holding? {
      HostStepMoves(w, l, act, v);
    }
  }

  /** A step enters `rent` with an offer that was handed out before, and only once. */
  lemma StepAttempts(w: World, a: Action, v: World)
    requires Step(w, a) == Some(v)
    ensures |w.handed| + Total(v.legs, OfferWeight) + AttemptOf(a) == |v.handed| + Total(w.legs, OfferWeight)
  {
    match a {
      case Leg(l, act) =>
        LegStepMoves(w, l, act, v);
        LegStepAttempts(w, l, act, v);
        TotalUpdate(w.legs, l, v.legs[l], OfferWeight);
      case Main(todo) =>
        assert v.handed == w.handed;
        if v.legs != w.legs {
          TotalUpdate(w.legs, w.main.next, Cancelled, OfferWeight);
        }
      case Environment(event) => assert v.legs == w.legs && v.handed == w.handed;
    }
  }

  lemma {:induction false} RunAttempts(states: seq<World>, actions: seq<Action>, i: nat)
    requires IsRun(states, actions) && i < |states|
    ensures RentAttempts(actions[..i]) + Total(states[i].legs, OfferWeight) == |states[i].handed|
  {
    if i == 0 {
      var cfg, pending, listing :| states[0] == Begin(cfg, pending, listing);
      TotalOfQueued(pending, OfferWeight);
    } else {
      RunAttempts(states, actions, i - 1);
      assert Step(states[i - 1], actions[i - 1]) == Some(states[i]);
      StepAttempts(states[i - 1], actions[i - 1], states[i]);
      assert actions[..i][..i - 1] == actions[..i - 1];
    }
  }

  ghost predicate OffersWired(w: World) {
    && PoolConserves(PoolOf(w), w.cfg.maxRefills)
    && w.nextId + Total(w.legs, PreCreateWeight) <= |w.handed|
  }

  lemma LegStepOffers(w: World, l: nat, act: LegAct, v: World)
    requires OffersWired(w) && l < |w.legs| && MovesOneLeg(w, l, act, v)
    ensures OffersWired(v)
  {
    TotalUpdate(w.legs, l, v.legs[l], PreCreateWeight);
    if act.GetOffer? {
      PoolGetConserves(PoolOf(w), w.cfg.maxRefills, act.listing);
    }
  }

  lemma StepOffers(w: World, a: Action, v: World)
    requires OffersWired(w) && Step(w, a) == Some(v)
    ensures OffersWired(v)
  {
    match a {
      case Leg(l, act) =>
        LegStepMoves(w, l, act, v);
        LegStepOffers(w, l, act, v);
      case Main(todo) => MainStepOffers(w, todo, v);
      case Environment(event) => assert PoolOf(v) == PoolOf(w) && v.legs == w.legs && v.nextId == w.nextId;
    }
  }

  lemma MainStepOffers(w: World, todo: MainAct, v: World)
    requires OffersWired(w) && MainStep(w, todo) == Some(v)
    ensures OffersWired(v)
  {
    assert PoolOf(v) == PoolOf(w) && v.nextId == w.nextId && v.cfg == w.cfg;
    if v.legs != w.legs {
      TotalUpdate(w.legs, w.main.next, Cancelled, PreCreateWeight);
    }
  }

  // ---- all of it, over whole runs

  ghost predicate Inv(w: World) {
    Wired(w) && LeaksReported(w) && MainWired(w) && OffersWired(w)
  }

  lemma BeginInv(cfg: Settings, pending: nat, listing: seq<Offer>)
    ensures Inv(Begin(cfg, pending, listing))
  {
    var w := Begin(cfg, pending, listing);
    BeginWired(cfg, pending, listing);
    TotalOfQueued(pending, ActiveWeight);
    TotalOfQueued(pending, PreCreateWeight);
    assert [listing][..0] == [];
    assert Concat([listing]) == listing;
    assert w.rows == [];
    assert LeaksWith(w, {});
  }

  lemma StepInv(w: World, a: Action, v: World)
    requires Inv(w) && Step(w, a) == Some(v)
    ensures Inv(v)
  {
    StepWired(w, a, v);
    StepLeaks(w, a, v);
    StepMain(w, a, v);
    StepOffers(w, a, v);
  }

  lemma {:induction false} RunInv(states: seq<World>, actions: seq<Action>, i: nat)
    requires IsRun(states, actions) && i < |states|
    ensures Inv(states[i])
  {
    if i == 0 {
      var cfg, pending, listing :| states[0] == Begin(cfg, pending, listing);
      BeginInv(cfg, pending, listing);
    } else {
      RunInv(states, actions, i - 1);
      assert Step(states[i - 1], actions[i - 1]) == Some(states[i]);
      StepInv(states[i - 1], actions[i - 1], states[i]);
    }
  }
}

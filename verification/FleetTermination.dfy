/** Every interleaving of a fleet run is finite, within a bound known from the listings,
    and no interleaving gets stuck before the main thread has returned or raised. */
module FleetTermination {
  import opened Prelude
  import opened FleetModel
  import opened FleetInvariants

  /** Steps a leg can still take before it needs another offer or settles. */
  function Rank(p: Phase): nat {
    match p
    case Queued => 2
    case AtPool => 1
    case HasOffer(_) => 15
    case Checking(_, _, _) => 14
    case Renting(_, _) => 13
    case Holding(_, stage) => StageRank(stage)
    case _ => 0
  }

  function StageRank(stage: Stage): nat {
    match stage
    case Created => 12
    case Provisioning => 11
    case Yielded => 10
    case Working => 9
    case TearingDown(_, _, tries) => if tries < 5 then 8 - tries else 4
    case Verifying(_, _, _) => 3
    case Logging(_, _, _, _) => 2
  }

  function Uncollected(n: nat, results: map<nat, LegResult>): nat {
    if n == 0 then 0
    else Uncollected(n - 1, results) + if n - 1 in results then 0 else 1
  }

  function MainRank(w: World): nat {
    match w.main
    case Collecting => Uncollected(|w.legs|, w.results) + |w.legs| + 3
    case Cancelling(next) => (if next < |w.legs| then |w.legs| - next else 0) + 2
    case Joining(_) => 1
    case Ended(_) => 0
  }

  function LegRank(w: World): nat { Total(w.legs, Rank) }

  function Listed(w: World): nat { |Concat(w.batches)| }

  /** Every queued offer is worth one more attempt. */
  function Potential(w: World): nat {
    15 * |w.queue| + LegRank(w) + MainRank(w)
  }

  lemma {:induction false} CollectOne(n: nat, results: map<nat, LegResult>, l: nat, r: LegResult)
    requires l !in results
    ensures Uncollected(n, results[l := r]) + (if l < n then 1 else 0) == Uncollected(n, results)
  {
    if n > 0 {
      CollectOne(n - 1, results, l, r);
    }
  }

  lemma {:induction false} NothingCollected(n: nat)
    ensures Uncollected(n, map[]) == n
  {
    if n > 0 {
      NothingCollected(n - 1);
    }
  }

  /** A leg's step that does not go to the pool uses up rank. */
  lemma LegStepRank(w: World, l: nat, act: LegAct, v: World)
    requires Step(w, Leg(l, act)) == Some(v) && !act.GetOffer?
    requires TriesBounded(w)
    ensures MovesOneLeg(w, l, act, v)
    ensures Rank(v.legs[l]) < Rank(w.legs[l])
    ensures v.queue == w.queue && v.refills == w.refills && v.batches == w.batches
  {
    LegStepMoves(w, l, act, v);
    assert PoolOf(v) == PoolOf(w);
    if w.legs[l].Holding? {
      HostStepRank(w, l, act, v);
    }
  }

  lemma HostStepRank(w: World, l: nat, act: LegAct, v: World)
    requires l < |w.legs| && w.legs[l].Holding? && HostStep(w, l, act) == Some(v)
    requires TriesBounded(w)
    ensures Rank(v.legs[l]) < Rank(w.legs[l])
  {
  }

  ghost predicate TriesBounded(w: World) {
    forall l :: 0 <= l < |w.legs| && w.legs[l].Holding? && w.legs[l].stage.TearingDown? ==> w.legs[l].stage.tries < 5
  }

  lemma StepTries(w: World, a: Action, v: World)
    requires TriesBounded(w) && Step(w, a) == Some(v)
    ensures TriesBounded(v)
  {
    match a {
      case Leg(l, act) =>
        LegStepMoves(w, l, act, v);
        if w.legs[l].Holding? {
          HostStepTries(w, l, act, v);
        }
      case _ =>
    }
  }

  lemma HostStepTries(w: World, l: nat, act: LegAct, v: World)
    requires l < |w.legs| && w.legs[l].Holding? && HostStep(w, l, act) == Some(v)
    ensures v.legs[l].Holding? && v.legs[l].stage.TearingDown? ==> v.legs[l].stage.tries < 5
  {
  }

  /** What going to the pool does to the pool, and how much rank the leg then has. */
  lemma PoolGetRank(p: Pool, maxRefills: nat, listing: Option<seq<Offer>>)
    ensures var (q, got) := PoolGet(p, maxRefills, listing);
            && p.refills <= q.refills && |Concat(p.batches)| <= |Concat(q.batches)|
            && (got.Offered? ==> |q.queue| + 1 == |p.queue| + |Concat(q.batches)| - |Concat(p.batches)|)
            && (!got.Offered? ==> |q.queue| <= |p.queue| + |Concat(q.batches)| - |Concat(p.batches)|)
            && (q.refills == p.refills ==> if got.Offered? then |q.queue| < |p.queue| else q.queue == p.queue)
  {
    if p.queue == [] && p.refills < maxRefills && listing.Some? {
      var more := p.batches + [listing.value];
      assert more[..|p.batches|] == p.batches;
    }
  }

  /** Going to the pool uses up an offer, a refill, or the leg. */
  lemma GetOfferRank(w: World, l: nat, listing: Option<seq<Offer>>, v: World)
    requires l < |w.legs| && w.legs[l].AtPool? && v == GetOfferStep(w, l, listing)
    ensures MainRank(v) == MainRank(w)
    ensures 15 * |v.queue| + LegRank(v) + 1 <= 15 * |w.queue| + LegRank(w) + 15 * (Listed(v) - Listed(w))
    ensures w.refills <= v.refills
    ensures v.refills == w.refills ==> |v.queue| <= |w.queue| && (v.queue == w.queue ==> LegRank(v) < LegRank(w))
    ensures v.refills == w.refills && |v.queue| == |w.queue| ==> v.queue == w.queue
    ensures Listed(w) <= Listed(v)
  {
    var (q, got) := PoolGet(PoolOf(w), w.cfg.maxRefills, listing);
    PoolGetRank(PoolOf(w), w.cfg.maxRefills, listing);
    assert PoolOf(v) == q && v.legs == w.legs[l := v.legs[l]] && v.main == w.main && v.results == w.results;
    assert Rank(v.legs[l]) == if got.Offered? then 15 else 0;
    TotalUpdate(w.legs, l, v.legs[l], Rank);
  }

  lemma MainStepRank(w: World, todo: MainAct, v: World)
    requires MainStep(w, todo) == Some(v)
    ensures MainRank(v) < MainRank(w) && LegRank(v) <= LegRank(w)
    ensures v.queue == w.queue && v.refills == w.refills && v.batches == w.batches
  {
    match todo {
      case Collect(l) => if v.main.Collecting? { CollectOne(|w.legs|, w.results, l, w.legs[l].result); }
      case CancelNext => if v.legs != w.legs { TotalUpdate(w.legs, w.main.next, Cancelled, Rank); }
      case _ =>
    }
  }

  lemma EnvironmentRank(w: World, event: EnvAct, v: World)
    requires EnvironmentStep(w, event) == Some(v)
    ensures Potential(v) == Potential(w) && v.batches == w.batches
  {
    assert v.legs == w.legs && v.main == w.main && v.results == w.results && v.queue == w.queue;
  }

  /** Refills left, then queue length, then remaining work of the legs and the main
      thread: every program step decreases this triple lexicographically. */
  lemma EveryStepDecreases(w: World, a: Action, v: World)
    requires Step(w, a) == Some(v) && !a.Environment? && TriesBounded(w)
    ensures
      || w.refills < v.refills
      || (w.refills == v.refills && |v.queue| < |w.queue|)
      || (w.refills == v.refills && |v.queue| == |w.queue|
          && LegRank(v) + MainRank(v) < LegRank(w) + MainRank(w))
    ensures Potential(v) + 1 <= Potential(w) + 15 * (Listed(v) - Listed(w))
  {
    match a {
      case Main(todo) => MainStepRank(w, todo, v);
      case Leg(l, act) =>
        LegStepMoves(w, l, act, v);
        if act.GetOffer? {
          GetOfferRank(w, l, act.listing, v);
        } else {
          LegStepRank(w, l, act, v);
          TotalUpdate(w.legs, l, v.legs[l], Rank);
          assert MainRank(v) == MainRank(w);
        }
    }
  }

  /** Program steps among the actions; ticks, host deaths and crashes do not count. */
  function ProgramSteps(actions: seq<Action>): nat {
    if actions == [] then 0
    else ProgramSteps(actions[..|actions| - 1]) + if actions[|actions| - 1].Environment? then 0 else 1
  }

  lemma {:induction false} StepsArePaidFor(states: seq<World>, actions: seq<Action>, i: nat)
    requires IsRun(states, actions) && i < |states|
    ensures TriesBounded(states[i])
    ensures ProgramSteps(actions[..i]) + Potential(states[i])
         <= Potential(states[0]) + 15 * (Listed(states[i]) - Listed(states[0]))
  {
    if i == 0 {
      assert actions[..0] == [];
    } else {
      StepsArePaidFor(states, actions, i - 1);
      assert actions[..i][..i - 1] == actions[..i - 1];
      var w, a, v := states[i - 1], actions[i - 1], states[i];
      assert Step(w, a) == Some(v);
      StepTries(w, a, v);
      if a.Environment? {
        EnvironmentRank(w, a.event, v);
      } else {
        EveryStepDecreases(w, a, v);
      }
    }
  }

  /** No run takes more than 15 program steps per listed offer and 4 per leg, plus 3. */
  lemma RunsAreBounded(states: seq<World>, actions: seq<Action>)
    requires IsRun(states, actions)
    ensures ProgramSteps(actions) <= 15 * Listed(states[|actions|]) + 4 * |states[0].legs| + 3
  {
    var cfg, pending, listing :| states[0] == Begin(cfg, pending, listing);
    StepsArePaidFor(states, actions, |actions|);
    assert actions[..|actions|] == actions;
    BeginPotential(cfg, pending, listing);
  }

  lemma BeginPotential(cfg: Settings, pending: nat, listing: seq<Offer>)
    ensures var w := Begin(cfg, pending, listing);
            Potential(w) == 15 * |listing| + 4 * |w.legs| + 3 && Listed(w) == |listing|
  {
    TotalOfQueued(pending, Rank);
    NothingCollected(pending);
    assert [listing][..0] == [];
    assert Concat([listing]) == listing;
  }

  // ---- no deadlock

  function NextAct(p: Phase): LegAct
    requires Active(p)
  {
    match p
    case HasOffer(_) => ReadBooked
    case Checking(_, _, _) => ReadInFlight
    case Renting(_, _) => CreateSucceeds
    case Holding(_, stage) => NextHostAct(stage)
    case _ => GetOffer(Some([]))
  }

  function NextHostAct(stage: Stage): LegAct {
    match stage
    case Created => LogRented
    case Provisioning => LogRunning
    case Yielded => Track
    case Working => Finish(BadHost)
    case TearingDown(_, _, _) => DestroyTry(Acked, true)
    case Verifying(_, _, _) => Relist(true)
    case Logging(_, _, _, _) => LogDestroyed
  }

  lemma {:induction false} NoneActive(legs: seq<Phase>)
    requires forall l :: 0 <= l < |legs| ==> !Active(legs[l])
    ensures Total(legs, ActiveWeight) == 0
  {
    if legs != [] {
      NoneActive(legs[..|legs| - 1]);
    }
  }

  /** Until the run has ended or the process has crashed, some program step is enabled. */
  lemma NeverStuck(states: seq<World>, actions: seq<Action>, i: nat)
    requires IsRun(states, actions) && i < |states|
    requires !states[i].crashed && !states[i].main.Ended? && states[i].cfg.maxParallel > 0
    ensures exists a: Action :: !a.Environment? && Step(states[i], a).Some?
  {
    RunInv(states, actions, i);
    var w := states[i];
    if l: nat :| l < |w.legs| && Active(w.legs[l]) {
      ActiveLegCanMove(w, l);
    } else if l: nat :| l < |w.legs| && w.legs[l].Queued? {
      NoneActive(w.legs);
      assert Step(w, Leg(l, Start)).Some?;
    } else {
      MainCanMove(w);
    }
  }

  lemma ActiveLegCanMove(w: World, l: nat)
    requires l < |w.legs| && Active(w.legs[l]) && !w.crashed
    ensures Step(w, Leg(l, NextAct(w.legs[l]))).Some?
  {
  }

  /** Legs wait for nothing but the pool: one that has not ended can always make its next step,
      except a queued one behind as many active legs as are allowed at once. */
  lemma LegCanMoveExactly(w: World, l: nat)
    requires l < |w.legs| && !Settled(w.legs[l]) && !w.crashed
    ensures (exists act :: Step(w, Leg(l, act)).Some?)
       <==> !w.legs[l].Queued? || Total(w.legs, ActiveWeight) < w.cfg.maxParallel
  {
    if w.legs[l].Queued? {
      if Total(w.legs, ActiveWeight) < w.cfg.maxParallel {
        assert Step(w, Leg(l, Start)).Some?;
      }
    } else {
      ActiveLegCanMove(w, l);
    }
  }

  lemma MainCanMove(w: World)
    requires MainWired(w) && !w.crashed && !w.main.Ended?
    requires forall l :: 0 <= l < |w.legs| ==> Settled(w.legs[l])
    ensures exists todo :: Step(w, Main(todo)).Some?
  {
    match w.main {
      case Collecting =>
        if l: nat :| l < |w.legs| && l !in w.results {
          assert Step(w, Main(Collect(l))).Some?;
        } else {
          assert Step(w, Main(AllCollected)).Some?;
        }
      case Cancelling(_) => assert Step(w, Main(CancelNext)).Some?;
      case Joining(_) => assert Step(w, Main(Shutdown)).Some?;
    }
  }
}

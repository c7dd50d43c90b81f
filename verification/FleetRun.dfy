/** What `run` does around the leg threads: reject duplicate labels, skip legs whose marker
    is already present, and hand back one result per input leg, in input order. */
module FleetRun {
  import opened Prelude
  import opened FleetModel
  import opened FleetInvariants
  import opened FleetTheorems

  datatype FleetLeg = FleetLeg(name: string, complete: bool)

  datatype Outcome = Skipped | Finished(result: LegResult)

  datatype Report = Report(name: string, outcome: Outcome)

  ghost predicate UniqueLabels(legs: seq<FleetLeg>) {
    forall i, j :: 0 <= i < j < |legs| ==> legs[i].name != legs[j].name
  }

  /** The `set(labels)` test: a collection of labels no larger than the list. */
  method LabelsAreUnique(legs: seq<FleetLeg>) returns (unique: bool)
    ensures unique <==> UniqueLabels(legs)
  {
    var labels: set<string> := {};
    for i := 0 to |legs|
      invariant labels == set j | 0 <= j < i :: legs[j].name
      invariant UniqueLabels(legs[..i])
    {
      if legs[i].name in labels {
        var j :| 0 <= j < i && legs[j].name == legs[i].name;
        return false;
      }
      labels := labels + {legs[i].name};
    }
    assert legs[..|legs|] == legs;
    return true;
  }

  /** The legs that are submitted to the pool. */
  function Pending(legs: seq<FleetLeg>): seq<FleetLeg> {
    if legs == [] then []
    else Pending(legs[..|legs| - 1]) + if legs[|legs| - 1].complete then [] else [legs[|legs| - 1]]
  }

  /** Position of leg i among the pending ones. */
  function Slot(legs: seq<FleetLeg>, i: nat): nat
    requires i < |legs|
  {
    |Pending(legs[..i])|
  }

  lemma {:induction false} SlotFindsLeg(legs: seq<FleetLeg>, i: nat)
    requires i < |legs| && !legs[i].complete
    ensures Slot(legs, i) < |Pending(legs)| && Pending(legs)[Slot(legs, i)] == legs[i]
  {
    var n := |legs| - 1;
    if i < n {
      assert legs[..n][..i] == legs[..i];
      SlotFindsLeg(legs[..n], i);
    }
  }

  lemma {:induction false} PendingFromLegs(legs: seq<FleetLeg>, k: nat)
    requires k < |Pending(legs)|
    ensures exists i :: 0 <= i < |legs| && !legs[i].complete && Slot(legs, i) == k
  {
    var n := |legs| - 1;
    if k == |Pending(legs[..n])| {
      assert Slot(legs, n) == k;
    } else {
      PendingFromLegs(legs[..n], k);
      var i :| 0 <= i < n && !legs[..n][i].complete && Slot(legs[..n], i) == k;
      assert legs[..n][..i] == legs[..i];
      assert Slot(legs, i) == k;
    }
  }

  lemma PendingLabelsDistinct(legs: seq<FleetLeg>, j: nat, k: nat)
    requires UniqueLabels(legs) && j < k < |Pending(legs)|
    ensures Pending(legs)[j].name != Pending(legs)[k].name
  {
    PendingFromLegs(legs, j);
    PendingFromLegs(legs, k);
    var p :| 0 <= p < |legs| && !legs[p].complete && Slot(legs, p) == j;
    var q :| 0 <= q < |legs| && !legs[q].complete && Slot(legs, q) == k;
    SlotFindsLeg(legs, p);
    SlotFindsLeg(legs, q);
  }

  /** First loop of `run`: completed legs get their SKIP entry, the rest are pending. */
  method Prepare(legs: seq<FleetLeg>) returns (results: map<string, Outcome>, pending: seq<FleetLeg>)
    requires UniqueLabels(legs)
    ensures pending == Pending(legs)
    ensures forall i :: 0 <= i < |legs| && legs[i].complete ==>
              legs[i].name in results && results[legs[i].name] == Skipped
  {
    results, pending := map[], [];
    for i := 0 to |legs|
      invariant pending == Pending(legs[..i])
      invariant forall j :: 0 <= j < i && legs[j].complete ==>
                  legs[j].name in results && results[legs[j].name] == Skipped
    {
      assert legs[..i + 1][..i] == legs[..i];
      if legs[i].complete {
        results := results[legs[i].name := Skipped];
      } else {
        pending := pending + [legs[i]];
      }
    }
    assert legs[..|legs|] == legs;
  }

  datatype RunError = DuplicateLabels | NoListing | BudgetHalt | LegRaised

  lemma PendingIsIncomplete(legs: seq<FleetLeg>)
    ensures Pending(legs) != [] <==> exists leg :: leg in legs && !leg.complete
  {
    if leg :| leg in legs && !leg.complete {
      var i :| 0 <= i < |legs| && legs[i] == leg;
      SlotFindsLeg(legs, i);
    }
    if Pending(legs) != [] {
      PendingFromLegs(legs, 0);
      var i :| 0 <= i < |legs| && !legs[i].complete && Slot(legs, i) == 0;
      assert legs[i] in legs;
    }
  }

  /** There is something to run: labels all different, and an incomplete leg. */
  ghost predicate Starts(legs: seq<FleetLeg>) {
    UniqueLabels(legs) && exists leg :: leg in legs && !leg.complete
  }

  /** Leg i's entry: its label, and SKIP if it was complete, else what its own thread returned. */
  ghost predicate Reported(report: Report, legs: seq<FleetLeg>, finished: map<nat, LegResult>, i: nat)
    requires i < |legs|
  {
    && report.name == legs[i].name
    && (legs[i].complete ==> report.outcome == Skipped)
    && (!legs[i].complete ==>
          Slot(legs, i) in finished && report.outcome == Finished(finished[Slot(legs, i)]))
  }

  /** `run` around the pool: `listed` when the pool's first listing answers, `order` the futures
      in the order in which they complete, `finished[k]` what the k-th pending leg's thread
      returned, and `raised` the exception, over the budget or another, of the future after
      those. Without one the list that comes back has one entry per input leg, in input order,
      whatever the completion order was. */
  method Run(legs: seq<FleetLeg>, listed: bool, order: seq<nat>, finished: map<nat, LegResult>, raised: Option<bool>)
    returns (reports: Result<seq<Report>, RunError>)
    requires forall m :: 0 <= m < |order| ==> order[m] < |Pending(legs)| && order[m] in finished
    requires raised.None? ==> forall k :: 0 <= k < |Pending(legs)| ==> k in order
    ensures reports == Err(DuplicateLabels) <==> !UniqueLabels(legs)
    ensures reports == Err(NoListing) <==> Starts(legs) && !listed
    ensures reports == Err(BudgetHalt) <==> Starts(legs) && listed && raised == Some(true)
    ensures reports == Err(LegRaised) <==> Starts(legs) && listed && raised == Some(false)
    ensures reports.Ok? ==> |reports.value| == |legs|
    ensures reports.Ok? ==> forall i :: 0 <= i < |legs| ==>
              Reported(reports.value[i], legs, finished, i)
  {
    PendingIsIncomplete(legs);
    var unique := LabelsAreUnique(legs);
    if !unique {
      return Err(DuplicateLabels);
    }
    var results, pending := Prepare(legs);
    if pending != [] {
      if !listed {
        return Err(NoListing);
      }
      results := Collect(legs, pending, order, finished, results);
      if raised.Some? {
        return Err(if raised.value then BudgetHalt else LegRaised);
      }
    }
    var list := Assemble(legs, order, finished, results);
    return Ok(list);
  }

  /** Every skipped leg's entry, and that of each pending leg collected so far. */
  ghost predicate Collected(legs: seq<FleetLeg>, order: seq<nat>, finished: map<nat, LegResult>,
                            results: map<string, Outcome>)
    requires forall m :: 0 <= m < |order| ==> order[m] < |Pending(legs)| && order[m] in finished
  {
    && (forall i :: 0 <= i < |legs| && legs[i].complete ==> legs[i].name in results && results[legs[i].name] == Skipped)
    && (forall m :: 0 <= m < |order| ==>
          && Pending(legs)[order[m]].name in results
          && results[Pending(legs)[order[m]].name] == Finished(finished[order[m]]))
  }

  method Collect(legs: seq<FleetLeg>, pending: seq<FleetLeg>, order: seq<nat>, finished: map<nat, LegResult>,
                 before: map<string, Outcome>) returns (results: map<string, Outcome>)
    requires UniqueLabels(legs) && pending == Pending(legs)
    requires forall m :: 0 <= m < |order| ==> order[m] < |pending| && order[m] in finished
    requires Collected(legs, [], finished, before)
    ensures Collected(legs, order, finished, results)
  {
    results := before;
    for n := 0 to |order|
      invariant Collected(legs, order[..n], finished, results)
    {
      var k := order[n];
      RecordKeepsOthers(legs, k);
      results := results[pending[k].name := Finished(finished[k])];
      assert order[..n + 1] == order[..n] + [k];
    }
    assert order[..|order|] == order;
  }

  method Assemble(legs: seq<FleetLeg>, order: seq<nat>, finished: map<nat, LegResult>, results: map<string, Outcome>)
    returns (list: seq<Report>)
    requires forall m :: 0 <= m < |order| ==> order[m] < |Pending(legs)| && order[m] in finished
    requires Collected(legs, order, finished, results) && forall k :: 0 <= k < |Pending(legs)| ==> k in order
    ensures |list| == |legs|
    ensures forall i :: 0 <= i < |legs| ==> Reported(list[i], legs, finished, i)
  {
    list := [];
    for i := 0 to |legs|
      invariant |list| == i
      invariant forall j :: 0 <= j < i ==> Reported(list[j], legs, finished, j)
    {
      if !legs[i].complete {
        SlotFindsLeg(legs, i);
        assert Slot(legs, i) in order;
        ghost var m :| 0 <= m < |order| && order[m] == Slot(legs, i);
        assert Pending(legs)[order[m]] == legs[i];
      }
      list := list + [Report(legs[i].name, results[legs[i].name])];
    }
  }

  /** What a leg's entry must be: SKIP, or what its own thread returned. */
  function OutcomeOf(legs: seq<FleetLeg>, finished: map<nat, LegResult>, i: nat): Outcome
    requires i < |legs|
  {
    if legs[i].complete then Skipped
    else if Slot(legs, i) in finished then Finished(finished[Slot(legs, i)])
    else Skipped
  }

  lemma RecordKeepsOthers(legs: seq<FleetLeg>, k: nat)
    requires UniqueLabels(legs) && k < |Pending(legs)|
    ensures forall i :: 0 <= i < |legs| && legs[i].complete ==> legs[i].name != Pending(legs)[k].name
    ensures forall j :: 0 <= j < |Pending(legs)| && j != k ==> Pending(legs)[j].name != Pending(legs)[k].name
  {
    PendingFromLegs(legs, k);
    var p :| 0 <= p < |legs| && !legs[p].complete && Slot(legs, p) == k;
    SlotFindsLeg(legs, p);
    forall j | 0 <= j < |Pending(legs)| && j != k ensures Pending(legs)[j].name != Pending(legs)[k].name {
      if j < k {
        PendingLabelsDistinct(legs, j, k);
      } else {
        PendingLabelsDistinct(legs, k, j);
      }
    }
  }

  /** The transition system supplies what `Run` needs after a normal end: every pending leg
      has been collected, and what was collected is what its thread ended with. */
  lemma NormalEndCollectsEveryLeg(legs: seq<FleetLeg>, states: seq<World>, actions: seq<Action>, n: nat, i: nat)
    requires IsRun(states, actions) && n < |states| && states[n].main == Ended(Normal)
    requires |states[n].legs| == |Pending(legs)| && i < |legs| && !legs[i].complete
    ensures Slot(legs, i) in states[n].results && Slot(legs, i) < |states[n].legs|
    ensures states[n].legs[Slot(legs, i)].Done?
    ensures OutcomeOf(legs, states[n].results, i) == Finished(states[n].legs[Slot(legs, i)].result)
  {
    EndIsClean(states, actions, n);
    SlotFindsLeg(legs, i);
  }

  /** The leg whose exception the main thread met, as long as it matters. */
  ghost predicate HasCause(w: World) {
    && (w.main.Cancelling? || w.main == Joining(Halted) || w.main == Ended(Halted) ==> exists l :: RaisedAt(w, l, true))
    && (w.main == Joining(Broke) || w.main == Ended(Broke) ==> exists l :: RaisedAt(w, l, false))
  }

  ghost predicate RaisedAt(w: World, l: nat, budget: bool) {
    l < |w.legs| && w.legs[l] == Raised(budget)
  }

  lemma StepKeepsRaised(w: World, a: Action, v: World, l: nat, budget: bool)
    requires Step(w, a) == Some(v) && RaisedAt(w, l, budget)
    ensures RaisedAt(v, l, budget)
  {
    match a {
      case Leg(k, act) => LegStepMoves(w, k, act, v);
      case _ =>
    }
  }

  lemma StepHasCause(w: World, a: Action, v: World)
    requires Step(w, a) == Some(v) && HasCause(w)
    ensures HasCause(v)
  {
    forall l, budget | RaisedAt(w, l, budget) ensures RaisedAt(v, l, budget) {
      StepKeepsRaised(w, a, v, l, budget);
    }
    match a {
      case Leg(k, act) => LegStepMoves(w, k, act, v);
      case Main(Collect(l)) =>
        if w.legs[l].Raised? {
          assert RaisedAt(v, l, w.legs[l].budget);
        }
      case _ =>
    }
  }

  /** And for the exceptions: a run that ends halted has a leg that raised over the budget, one
      that ends broken a leg that raised otherwise. */
  lemma {:induction false} AbnormalEndHasItsCause(states: seq<World>, actions: seq<Action>, n: nat)
    requires IsRun(states, actions) && n < |states|
    ensures states[n].main == Ended(Halted) ==> exists l :: RaisedAt(states[n], l, true)
    ensures states[n].main == Ended(Broke) ==> exists l :: RaisedAt(states[n], l, false)
    ensures HasCause(states[n])
  {
    if n > 0 {
      AbnormalEndHasItsCause(states, actions, n - 1);
      assert Step(states[n - 1], actions[n - 1]) == Some(states[n]);
      StepHasCause(states[n - 1], actions[n - 1], states[n]);
    }
  }

  /** What the main thread's loop raises, given how it ends. */
  function RaisedBy(why: Why): Option<bool> {
    match why
    case Normal => None
    case Halted => Some(true)
    case Broke => Some(false)
  }

  /** The main thread collected a leg that had raised, over the budget or otherwise. */
  ghost predicate CollectedRaise(states: seq<World>, actions: seq<Action>, n: nat, budget: bool)
    requires n < |states| == |actions| + 1
  {
    exists j, l :: 0 <= j < n && actions[j] == Main(MainAct.Collect(l)) && RaisedAt(states[j], l, budget)
  }

  predicate HeadsFor(main: MainPhase, budget: bool) {
    if budget then main.Cancelling? || main == Joining(Halted) || main == Ended(Halted)
    else main == Joining(Broke) || main == Ended(Broke)
  }

  lemma StepHeadsFor(w: World, a: Action, v: World, budget: bool)
    requires Step(w, a) == Some(v)
    ensures HeadsFor(v.main, budget)
       <==> HeadsFor(w.main, budget) || (a.Main? && a.todo.Collect? && RaisedAt(w, a.todo.leg, budget))
  {
    match a {
      case Leg(k, act) => LegStepMoves(w, k, act, v);
      case _ =>
    }
  }

  lemma {:induction false} RunHeadsFor(states: seq<World>, actions: seq<Action>, n: nat, budget: bool)
    requires IsRun(states, actions) && n < |states|
    ensures HeadsFor(states[n].main, budget) <==> CollectedRaise(states, actions, n, budget)
  {
    if n > 0 {
      RunHeadsFor(states, actions, n - 1, budget);
      assert Step(states[n - 1], actions[n - 1]) == Some(states[n]);
      StepHeadsFor(states[n - 1], actions[n - 1], states[n], budget);
    }
  }

  /** The exception `run` ends with is the one of the leg it collected: a budget halt exactly when
      that leg had raised over the budget, another exactly when it had raised otherwise, and none
      exactly when no collected leg had raised. */
  lemma RunRaisesWhatItCollected(states: seq<World>, actions: seq<Action>, n: nat, budget: bool)
    requires IsRun(states, actions) && n < |states| && states[n].main.Ended?
    ensures RaisedBy(states[n].main.why) == Some(budget) <==> CollectedRaise(states, actions, n, budget)
  {
    RunHeadsFor(states, actions, n, budget);
  }
}

/** The fleet run as a transition system: leg threads, the offer pool, the provider's
    rent/teardown protocol, the shared ledger and the collecting main thread, with the
    marketplace, ssh and the clock as environment. One action is one atomic effect, so a
    sequence of actions is one interleaving, and a crash may follow any of them. */
module FleetModel {
  import opened Prelude
  import opened Rounding
  import opened Ledger
  import Budget

  datatype Offer = Offer(id: nat, dph: real)

  datatype Status = OK | NO_RESULT | RUN_FAIL | BAD_ARTIFACTS | NO_OFFERS | LEAK | ERROR

  /** `leakTyped` tells a LeakRisk from an error whose text merely says "leak". */
  datatype LegResult = LegResult(status: Status, leakTyped: bool)

  /** How the body under `rent` ended, before teardown had its say. */
  datatype Exit =
    | Returned(status: Status)
    | FailOver
    | Failed(mentionsLeak: bool)

  /** What one use of a rented host looked like from the driver. */
  datatype BodyRun =
    | BadHost // readiness probe or upload failed, or a timeout was raised
    | Threw(mentionsLeak: bool)
    | Ran(rc: int, hostDead: bool, arrived: bool, damaged: bool, verdictFails: bool)

  function Conclude(run: BodyRun): Exit {
    match run
    case BadHost => FailOver
    case Threw(m) => Failed(m)
    case Ran(rc, hostDead, arrived, damaged, verdictFails) =>
      if rc != 0 then (if hostDead then FailOver else Returned(RUN_FAIL))
      else if !arrived then Returned(NO_RESULT)
      else if damaged then Returned(BAD_ARTIFACTS)
      else if verdictFails then Returned(RUN_FAIL)
      else Returned(OK)
  }

  datatype Rental = Rental(offer: Offer, t0: real, id: Id)

  datatype Stage =
    | Created // the instance exists, its `rented` row does not
    | Provisioning
    | Yielded
    | Working // between track and untrack
    | TearingDown(exit: Exit, billed: real, tries: nat)
    | Verifying(exit: Exit, billed: real, torn: bool)
    | Logging(exit: Exit, billed: real, torn: bool, verify: Verify)

  datatype Phase =
    | Queued
    | Cancelled
    | AtPool
    | HasOffer(offer: Offer)
    | Checking(offer: Offer, cap: real, booked: real) // summary read, in-flight not yet
    | Renting(offer: Offer, t0: real)
    | Holding(rental: Rental, stage: Stage)
    | Done(result: LegResult)
    | Raised(budget: bool)

  datatype Why = Normal | Halted | Broke

  datatype MainPhase =
    | Collecting
    | Cancelling(next: nat)
    | Joining(why: Why)
    | Ended(why: Why)

  datatype Settings = Settings(maxParallel: nat, maxRefills: nat, cap: Option<real>)

  datatype World = World(
    cfg: Settings,
    now: real,
    queue: seq<Offer>, refills: nat, batches: seq<seq<Offer>>, handed: seq<Offer>,
    legs: seq<Phase>,
    tracked: set<Id>, stranded: set<Id>,
    live: set<Id>, nextId: Id, owner: map<Id, nat>, unreported: set<Id>,
    rows: seq<Row>,
    main: MainPhase, results: map<nat, LegResult>,
    crashed: bool)

  datatype DestroyReply = Acked | AlreadyGone | Errored

  /** What one leg's thread can do next. */
  datatype LegAct =
    | Start
    | GetOffer(listing: Option<seq<Offer>>)
    | ReadBooked
    | ReadInFlight
    | CreateSucceeds
    | CreateFails(fatal: bool, acted: bool, mentionsLeak: bool) // the leg ends; the server created it all the same
    | LogRented
    | ProvisionFails(exit: Exit)
    | LogRunning
    | Track
    | Finish(run: BodyRun)
    | DestroyTry(reply: DestroyReply, effective: bool)
    | Relist(answered: bool)
    | LogDestroyed

  datatype MainAct = Collect(leg: nat) | AllCollected | CancelNext | Shutdown

  datatype EnvAct = Tick(dt: real) | HostDies(id: Id) | Crash

  datatype Action =
    | Leg(leg: nat, act: LegAct)
    | Main(todo: MainAct)
    | Environment(event: EnvAct)

  // ---- phases a thread pool distinguishes

  predicate Settled(p: Phase) {
    p.Done? || p.Raised? || p.Cancelled?
  }

  predicate Active(p: Phase) {
    !Settled(p) && !p.Queued?
  }

  function ActiveWeight(p: Phase): nat { if Active(p) then 1 else 0 }

  /** Adds up a weight over all legs. */
  function Total(legs: seq<Phase>, weight: Phase -> nat): nat {
    if legs == [] then 0
    else Total(legs[..|legs| - 1], weight) + weight(legs[|legs| - 1])
  }

  // ---- start of a run: the pool lists offers once, every pending leg is submitted

  function Begin(cfg: Settings, pending: nat, listing: seq<Offer>): World {
    World(cfg, 0.0,
          listing, 0, [listing], [],
          seq(pending, _ => Queued),
          {}, {},
          {}, 0, map[], {},
          [],
          Collecting, map[],
          false)
  }

  // ---- the offer pool

  datatype Pool = Pool(queue: seq<Offer>, refills: nat, batches: seq<seq<Offer>>, handed: seq<Offer>)

  datatype Got = Offered(offer: Offer) | Exhausted | ListingFailed

  /** One `get()`: refill once if drained, then pop the cheapest. `listing` is what the
      marketplace would answer, None if the query raises. */
  function PoolGet(p: Pool, maxRefills: nat, listing: Option<seq<Offer>>): (Pool, Got) {
    if p.queue == [] && p.refills < maxRefills then
      match listing
      case None => (p.(refills := p.refills + 1), ListingFailed)
      case Some(batch) => Pop(p.(refills := p.refills + 1, queue := batch, batches := p.batches + [batch]))
    else Pop(p)
  }

  function Pop(p: Pool): (Pool, Got) {
    if p.queue == [] then (p, Exhausted)
    else (p.(queue := p.queue[1..], handed := p.handed + [p.queue[0]]), Offered(p.queue[0]))
  }

  function PoolOf(w: World): Pool { Pool(w.queue, w.refills, w.batches, w.handed) }

  // ---- one leg

  function SetLeg(w: World, leg: nat, p: Phase): World
    requires leg < |w.legs|
  {
    w.(legs := w.legs[leg := p])
  }

  function ErrorResult(mentionsLeak: bool): LegResult {
    LegResult(if mentionsLeak then LEAK else ERROR, false)
  }

  /** What follows the end of teardown: a leak overrides whatever the body had to say. */
  function AfterTeardown(exit: Exit, torn: bool, verify: Verify): Phase {
    if !torn || verify.Present? then Done(LegResult(LEAK, true))
    else
      match exit
      case Returned(status) => Done(LegResult(status, false))
      case FailOver => AtPool
      case Failed(m) => Done(ErrorResult(m))
  }

  function GetOfferStep(w: World, leg: nat, listing: Option<seq<Offer>>): World
    requires leg < |w.legs|
  {
    var (p, got) := PoolGet(PoolOf(w), w.cfg.maxRefills, listing);
    var next := match got
      case Offered(offer) => HasOffer(offer)
      case Exhausted => Done(LegResult(NO_OFFERS, false))
      case ListingFailed => Raised(false);
    SetLeg(w, leg, next).(queue := p.queue, refills := p.refills, batches := p.batches, handed := p.handed)
  }

  /** A created instance gets a fresh id, starts billing, and belongs to the creating leg. */
  function Create(w: World, leg: nat): World {
    w.(live := w.live + {w.nextId}, nextId := w.nextId + 1, owner := w.owner[w.nextId := leg])
  }

  /** The ledger row each append would write. */
  function Append(w: World, event: Event): World {
    w.(rows := w.rows + [Row(RoundTo(w.now, 1000), event)])
  }

  function EstimatedCost(r: Rental, billed: real): real {
    RoundTo(r.offer.dph * billed / 3600.0, 10000)
  }

  function HostStep(w: World, l: nat, a: LegAct): Option<World>
    requires l < |w.legs| && w.legs[l].Holding?
  {
    var r := w.legs[l].rental;
    match (a, w.legs[l].stage)
    case (LogRented, Created) =>
      Some(Append(SetLeg(w, l, Holding(r, Provisioning)), Rented(r.id, r.offer.dph)))
    case (ProvisionFails(exit), Provisioning) =>
      if exit.Returned? then None
      else Some(SetLeg(w, l, Holding(r, TearingDown(exit, w.now - r.t0, 0))))
    case (LogRunning, Provisioning) =>
      Some(Append(SetLeg(w, l, Holding(r, Yielded)), Running(r.id)))
    case (Track, Yielded) =>
      Some(SetLeg(w, l, Holding(r, Working)).(tracked := w.tracked + {r.id}))
    case (Finish(run), Working) =>
      Some(SetLeg(w, l, Holding(r, TearingDown(Conclude(run), w.now - r.t0, 0))).(tracked := w.tracked - {r.id}))
    case (DestroyTry(reply, effective), TearingDown(exit, billed, tries)) =>
      var stage :=
        if reply.Acked? || reply.AlreadyGone? then Verifying(exit, billed, true)
        else if tries + 1 < 5 then TearingDown(exit, billed, tries + 1)
        else Verifying(exit, billed, false);
      Some(SetLeg(w, l, Holding(r, stage)).(live := if effective then w.live - {r.id} else w.live))
    case (Relist(answered), Verifying(exit, billed, torn)) =>
      var verify := if !answered then Unverified else if r.id in w.live then Present else Gone;
      Some(SetLeg(w, l, Holding(r, Logging(exit, billed, torn, verify))))
    case (LogDestroyed, Logging(exit, billed, torn, verify)) =>
      Some(Append(SetLeg(w, l, AfterTeardown(exit, torn, verify)),
                  Destroyed(r.id, torn, verify, EstimatedCost(r, billed), false)))
    case _ => None
  }

  function LegStep(w: World, l: nat, a: LegAct): Option<World>
    requires l < |w.legs|
  {
    match (a, w.legs[l])
    case (Start, Queued) =>
      if Total(w.legs, ActiveWeight) < w.cfg.maxParallel then Some(SetLeg(w, l, AtPool)) else None
    case (GetOffer(listing), AtPool) => Some(GetOfferStep(w, l, listing))
    case (ReadBooked, HasOffer(offer)) =>
      Some(SetLeg(w, l, match w.cfg.cap
                        case None => Renting(offer, w.now)
                        case Some(cap) => Checking(offer, cap, Booked(w.rows))))
    case (CreateSucceeds, Renting(offer, t0)) =>
      Some(Create(SetLeg(w, l, Holding(Rental(offer, t0, w.nextId), Created)), l))
    case (CreateFails(fatal, acted, m), Renting(_, _)) =>
      var v := SetLeg(w, l, if fatal then Done(ErrorResult(m)) else AtPool);
      Some(if acted then Create(v, l).(unreported := w.unreported + {w.nextId}) else v)
    case (_, Holding(_, _)) => HostStep(w, l, a)
    case _ => None
  }

  /** The second read of the cap check; ghost because it prices the open rentals. */
  ghost function ReadInFlightStep(w: World, l: nat): Option<World>
    requires l < |w.legs|
  {
    if w.legs[l].Checking? then
      var spent := w.legs[l].booked + Budget.InFlight(w.rows, w.now);
      Some(SetLeg(w, l, if spent >= w.legs[l].cap then Raised(true) else Renting(w.legs[l].offer, w.now)))
    else None
  }

  // ---- the main thread

  function MainStep(w: World, a: MainAct): Option<World> {
    match (a, w.main)
    case (Collect(l), Collecting) =>
      if l >= |w.legs| || l in w.results then None
      else if w.legs[l].Done? then Some(w.(results := w.results[l := w.legs[l].result]))
      else if w.legs[l].Raised? then
        Some(w.(main := if w.legs[l].budget then Cancelling(0) else Joining(Broke)))
      else None
    case (AllCollected, Collecting) =>
      if forall l :: 0 <= l < |w.legs| ==> l in w.results then Some(w.(main := Joining(Normal))) else None
    case (CancelNext, Cancelling(i)) =>
      if i >= |w.legs| then Some(w.(main := Joining(Halted)))
      else
        var v := w.(main := Cancelling(i + 1));
        Some(if w.legs[i].Queued? then SetLeg(v, i, Cancelled) else v)
    case (Shutdown, Joining(why)) =>
      // the pool's exit joins every thread, then whatever is still tracked is swept
      if forall l :: 0 <= l < |w.legs| ==> Settled(w.legs[l])
      then Some(w.(main := Ended(why), stranded := w.tracked, live := w.live - w.tracked))
      else None
    case _ => None
  }

  function EnvironmentStep(w: World, a: EnvAct): Option<World> {
    match a
    case Tick(dt) => if dt > 0.0 then Some(w.(now := w.now + dt)) else None
    case HostDies(id) => Some(w.(live := w.live - {id}))
    case Crash => Some(w.(crashed := true))
  }

  /** One step of the whole system; None when the action is not enabled. */
  ghost function Step(w: World, a: Action): Option<World> {
    match a
    case Environment(event) => EnvironmentStep(w, event)
    case Main(todo) => if w.crashed then None else MainStep(w, todo)
    case Leg(l, act) =>
      if w.crashed || l >= |w.legs| then None
      else if act.ReadInFlight? then ReadInFlightStep(w, l)
      else LegStep(w, l, act)
  }

  // ---- runs

  ghost predicate IsRun(states: seq<World>, actions: seq<Action>) {
    && |states| == |actions| + 1
    && (exists cfg, pending, listing :: states[0] == Begin(cfg, pending, listing))
    && forall i :: 0 <= i < |actions| ==> Step(states[i], actions[i]) == Some(states[i + 1])
  }
}

/** What a leg did, kept beside every run, and what that says about where the leg stands, how it
    ends, and what its hosts cost. */
module FleetLegs {
  import opened Prelude
  import opened Rounding
  import opened Ledger
  import opened FleetModel
  import opened FleetSafety
  import opened FleetInvariants
  import opened FleetTheorems

  // ---- the diary of one leg

  /** The leg's last act, the last offer it was handed, the act that ended its last stay on a host,
      its last destroy and listing, and when it entered `rent`, logged the host and ended the stay. */
  datatype Diary = Diary(
    last: Option<LegAct>, offer: Option<Offer>, body: Option<LegAct>, tried: Option<LegAct>, relisted: Option<LegAct>,
    rentAt: real, loggedAt: real, endAt: real)

  function Blank(): Diary { Diary(None, None, None, None, None, 0.0, 0.0, 0.0) }

  function Written(d: Diary, w: World, act: LegAct, v: World): Diary {
    var e := d.(last := Some(act));
    match act
    case GetOffer(_) => e.(offer := if |v.handed| > |w.handed| then Some(v.handed[|v.handed| - 1]) else None)
    case ReadBooked => e.(rentAt := w.now)
    case ReadInFlight => e.(rentAt := w.now)
    case LogRented => e.(loggedAt := w.now)
    case ProvisionFails(_) => e.(body := Some(act), endAt := w.now)
    case Finish(_) => e.(body := Some(act), endAt := w.now)
    case DestroyTry(_, _) => e.(tried := Some(act))
    case Relist(_) => e.(relisted := Some(act))
    case _ => e
  }

  function DiaryOf(states: seq<World>, actions: seq<Action>, i: nat, l: nat): Diary
    requires i < |states| == |actions| + 1
  {
    if i == 0 then Blank()
    else
      var d := DiaryOf(states, actions, i - 1, l);
      match actions[i - 1]
      case Leg(k, act) => if k == l then Written(d, states[i - 1], act, states[i]) else d
      case _ => d
  }

  // ---- what a stay on a host earns

  predicate RanWell(run: BodyRun) { run.Ran? && run.rc == 0 && run.arrived }

  /** The status the last stay on a host earns, if its teardown leaves nothing behind. */
  predicate Earns(body: LegAct, s: Status) {
    match s
    case OK => body.Finish? && RanWell(body.run) && !body.run.damaged && !body.run.verdictFails
    case NO_RESULT => body.Finish? && body.run.Ran? && body.run.rc == 0 && !body.run.arrived
    case BAD_ARTIFACTS => body.Finish? && RanWell(body.run) && body.run.damaged
    case RUN_FAIL =>
      && body.Finish? && body.run.Ran?
      && ((body.run.rc != 0 && !body.run.hostDead) || (RanWell(body.run) && !body.run.damaged && body.run.verdictFails))
    case ERROR => body == Finish(Threw(false)) || body == ProvisionFails(Failed(false))
    case LEAK => body == Finish(Threw(true)) || body == ProvisionFails(Failed(true))
    case NO_OFFERS => false
  }

  /** A bad host, a run that failed on a dead one, or one that never came up: on to the next offer. */
  predicate MovesOn(body: LegAct) {
    || body == Finish(BadHost) || body == ProvisionFails(FailOver)
    || (body.Finish? && body.run.Ran? && body.run.rc != 0 && body.run.hostDead)
  }

  predicate ConfirmedBy(tried: Option<LegAct>) {
    tried.Some? && tried.value.DestroyTry? && (tried.value.reply.Acked? || tried.value.reply.AlreadyGone?)
  }

  /** How a body ended agrees with what is going to be made of it. */
  predicate ExitAgrees(exit: Exit, body: Option<LegAct>) {
    && body.Some?
    && match exit
       case Returned(s) => Earns(body.value, s) && !s.ERROR? && !s.LEAK?
       case FailOver => MovesOn(body.value)
       case Failed(m) => Earns(body.value, if m then LEAK else ERROR)
  }

  predicate StageAgrees(stage: Stage, d: Diary)
    requires d.last.Some?
  {
    match stage
    case Created => d.last.value.CreateSucceeds?
    case Provisioning => d.last.value.LogRented?
    case Yielded => d.last.value.LogRunning?
    case Working => d.last.value.Track?
    case TearingDown(exit, billed, _) =>
      && (d.last.value.ProvisionFails? || d.last.value.Finish? || d.last.value.DestroyTry?)
      && ExitAgrees(exit, d.body) && billed == d.endAt - d.rentAt
    case Verifying(exit, billed, torn) =>
      && d.last.value.DestroyTry? && d.last == d.tried && torn == ConfirmedBy(d.tried)
      && ExitAgrees(exit, d.body) && billed == d.endAt - d.rentAt
    case Logging(exit, billed, torn, verify) =>
      && d.last.value.Relist? && d.last == d.relisted && (verify.Unverified? <==> !d.last.value.answered)
      && torn == ConfirmedBy(d.tried) && ExitAgrees(exit, d.body) && billed == d.endAt - d.rentAt
  }

  /** The leg's phase is the one its diary calls for. */
  predicate Agrees(p: Phase, d: Diary) {
    match p
    case Queued => d.last.None?
    case Cancelled => d.last.None?
    case AtPool =>
      && d.last.Some?
      && (|| d.last.value.Start? || (d.last.value.CreateFails? && !d.last.value.fatal)
          || (d.last.value.LogDestroyed? && d.body.Some? && MovesOn(d.body.value)))
    case HasOffer(o) => d.last.Some? && d.last.value.GetOffer? && d.offer == Some(o)
    case Checking(o, _, _) => d.last.Some? && d.last.value.ReadBooked? && d.offer == Some(o)
    case Renting(o, t0) =>
      d.last.Some? && (d.last.value.ReadBooked? || d.last.value.ReadInFlight?) && d.offer == Some(o) && t0 == d.rentAt
    case Holding(r, stage) => d.last.Some? && d.offer == Some(r.offer) && r.t0 == d.rentAt && StageAgrees(stage, d)
    case Done(result) =>
      && d.last.Some?
      && (|| (d.last.value.GetOffer? && result == LegResult(NO_OFFERS, false))
          || (d.last.value.CreateFails? && d.last.value.fatal
              && result == LegResult(if d.last.value.mentionsLeak then LEAK else ERROR, false))
          || (d.last.value.LogDestroyed? && d.body.Some?
              && (result == LEAK_RESULT || (Earns(d.body.value, result.status) && !result.leakTyped))))
    case Raised(budget) => d.last.Some? && if budget then d.last.value.ReadInFlight? else d.last.value.GetOffer?
  }

  lemma ConcludeAgrees(run: BodyRun)
    ensures ExitAgrees(Conclude(run), Some(Finish(run)))
  {
  }

  lemma HostStepAgrees(w: World, l: nat, act: LegAct, v: World, d: Diary)
    requires l < |w.legs| && w.legs[l].Holding? && HostStep(w, l, act) == Some(v) && Agrees(w.legs[l], d)
    ensures Agrees(v.legs[l], Written(d, w, act, v))
  {
    if act.Finish? {
      ConcludeAgrees(act.run);
    }
  }

  lemma GetOfferAgrees(w: World, l: nat, listing: Option<seq<Offer>>, v: World, d: Diary)
    requires l < |w.legs| && w.legs[l].AtPool? && v == GetOfferStep(w, l, listing)
    ensures Agrees(v.legs[l], Written(d, w, GetOffer(listing), v))
  {
  }

  lemma LegStepAgrees(w: World, l: nat, act: LegAct, v: World, d: Diary)
    requires Step(w, Leg(l, act)) == Some(v) && Agrees(w.legs[l], d)
    ensures Agrees(v.legs[l], Written(d, w, act, v))
  {
    if w.legs[l].Holding? {
      HostStepAgrees(w, l, act, v, d);
    } else if act.GetOffer? {
      LegStepMoves(w, l, act, v);
      GetOfferAgrees(w, l, act.listing, v, d);
    }
  }

  /** A step of anything but the leg leaves it, unless it is cancelled before it ever starts. */
  lemma OtherStepKeepsLeg(w: World, a: Action, v: World, l: nat)
    requires Step(w, a) == Some(v) && l < |w.legs| && !(a.Leg? && a.leg == l)
    ensures |v.legs| == |w.legs| && (v.legs[l] == w.legs[l] || (w.legs[l].Queued? && v.legs[l].Cancelled?))
  {
    match a {
      case Leg(k, act) => LegStepMoves(w, k, act, v);
      case _ =>
    }
  }

  lemma LegCountKept(w: World, a: Action, v: World)
    requires Step(w, a) == Some(v)
    ensures |v.legs| == |w.legs|
  {
    match a {
      case Leg(k, act) => LegStepMoves(w, k, act, v);
      case _ =>
    }
  }

  lemma {:induction false} DiaryAgrees(states: seq<World>, actions: seq<Action>, i: nat, l: nat)
    requires IsRun(states, actions) && i < |states| && l < |states[i].legs|
    ensures Agrees(states[i].legs[l], DiaryOf(states, actions, i, l))
  {
    if i > 0 {
      assert Step(states[i - 1], actions[i - 1]) == Some(states[i]);
      LegCountKept(states[i - 1], actions[i - 1], states[i]);
      DiaryAgrees(states, actions, i - 1, l);
      if actions[i - 1].Leg? && actions[i - 1].leg == l {
        LegStepAgrees(states[i - 1], l, actions[i - 1].act, states[i], DiaryOf(states, actions, i - 1, l));
      } else {
        OtherStepKeepsLeg(states[i - 1], actions[i - 1], states[i], l);
      }
    }
  }

  // ---- how a leg ends

  /** A teardown of this leg is in the ledger that failed, or that the listing contradicted. */
  ghost predicate LeftUnconfirmed(w: World, l: nat) {
    exists id :: id in UnconfirmedIds(w.rows) && id in w.owner && w.owner[id] == l
  }

  /** The leg's last act was to log the end of a host. */
  predicate TornDown(d: Diary) {
    d.last == Some(LogDestroyed) && d.body.Some?
  }

  /** A create that was refused for good, and what its message makes of it. */
  predicate CreateRefused(d: Diary, s: Status) {
    && d.last.Some? && d.last.value.CreateFails? && d.last.value.fatal
    && s == if d.last.value.mentionsLeak then LEAK else ERROR
  }

  predicate MayMoveOn(d: Diary, left: bool) {
    && d.last.Some?
    && (|| d.last.value.Start? || (d.last.value.CreateFails? && !d.last.value.fatal)
        || (TornDown(d) && MovesOn(d.body.value) && !left))
  }

  lemma EarnsOne(body: LegAct, s: Status, t: Status)
    requires Earns(body, s) && Earns(body, t)
    ensures s == t && !MovesOn(body)
  {
  }

  lemma EndTells(p: Phase, d: Diary, left: bool, s: Status)
    requires Agrees(p, d) && (p == Done(LEAK_RESULT) <==> left) && !s.NO_OFFERS?
    ensures p == Done(LegResult(s, false)) <==> (TornDown(d) && Earns(d.body.value, s) && !left) || CreateRefused(d, s)
    ensures p.AtPool? <==> MayMoveOn(d, left)
    ensures p.Done? && p.result.leakTyped ==> left && TornDown(d)
  {
    if TornDown(d) && p.Done? && Earns(d.body.value, s) && Earns(d.body.value, p.result.status) {
      EarnsOne(d.body.value, s, p.result.status);
    }
  }

  /** A leg ends with a status exactly when its last act calls for it: a teardown that left nothing
      unconfirmed after a stay that earned it, or a create that was refused for good. The typed LEAK
      is exactly the unconfirmed teardown. */
  lemma LegEndsAsItRan(states: seq<World>, actions: seq<Action>, i: nat, l: nat, s: Status)
    requires IsRun(states, actions) && i < |states| && l < |states[i].legs| && !s.NO_OFFERS?
    ensures var p, d, left := states[i].legs[l], DiaryOf(states, actions, i, l), LeftUnconfirmed(states[i], l);
            && (p == Done(LegResult(s, false)) <==>
                  (TornDown(d) && Earns(d.body.value, s) && !left) || CreateRefused(d, s))
            && (p == Done(LEAK_RESULT) <==> left)
            && (p.Done? && p.result.leakTyped ==> left && TornDown(d))
  {
    DiaryAgrees(states, actions, i, l);
    LeaksAreNeverMasked(states, actions, i, l);
    EndTells(states[i].legs[l], DiaryOf(states, actions, i, l), LeftUnconfirmed(states[i], l), s);
  }

  /** A leg is at the pool, for its first offer or the next, exactly after its start, a create that
      failed for now, or a teardown that left nothing unconfirmed after a bad host. */
  lemma LegMovesOnExactly(states: seq<World>, actions: seq<Action>, i: nat, l: nat)
    requires IsRun(states, actions) && i < |states| && l < |states[i].legs|
    ensures states[i].legs[l].AtPool?
       <==> MayMoveOn(DiaryOf(states, actions, i, l), LeftUnconfirmed(states[i], l))
  {
    DiaryAgrees(states, actions, i, l);
    LeaksAreNeverMasked(states, actions, i, l);
    EndTells(states[i].legs[l], DiaryOf(states, actions, i, l), LeftUnconfirmed(states[i], l), OK);
  }

  // ---- the pool, seen by a leg

  /** Nothing queued, and no refill left or nothing on offer. */
  predicate Drained(w: World, listing: Option<seq<Offer>>) {
    w.queue == [] && (w.refills >= w.cfg.maxRefills || listing == Some([]))
  }

  predicate QueryFails(w: World, listing: Option<seq<Offer>>) {
    w.queue == [] && w.refills < w.cfg.maxRefills && listing.None?
  }

  /** What one `get` does to the leg and the pool: the first queued offer, or after one refill the
      first listed one; a drained pool ends the leg, a failing query raises through it. */
  lemma GetTells(w: World, l: nat, listing: Option<seq<Offer>>, v: World)
    requires Step(w, Leg(l, GetOffer(listing))) == Some(v)
    ensures v.legs[l] == Done(LegResult(NO_OFFERS, false)) <==> Drained(w, listing)
    ensures v.legs[l] == Raised(false) <==> QueryFails(w, listing)
    ensures !Drained(w, listing) && !QueryFails(w, listing) ==>
              var from := if w.queue == [] then listing.value else w.queue;
              from != [] && v.legs[l] == HasOffer(from[0]) && v.queue == from[1..]
    ensures v.refills == w.refills + if w.queue == [] && w.refills < w.cfg.maxRefills then 1 else 0
  {
    LegStepMoves(w, l, GetOffer(listing), v);
  }

  lemma {:induction false} SettledStays(states: seq<World>, actions: seq<Action>, i: nat, j: nat, l: nat)
    requires IsRun(states, actions) && i <= j < |states| && l < |states[i].legs| && Settled(states[i].legs[l])
    ensures l < |states[j].legs| && states[j].legs[l] == states[i].legs[l]
    decreases j - i
  {
    if i < j {
      SettledStays(states, actions, i, j - 1, l);
      assert Step(states[j - 1], actions[j - 1]) == Some(states[j]);
      match actions[j - 1] {
        case Leg(k, act) => LegStepMoves(states[j - 1], k, act, states[j]);
        case _ =>
      }
    }
  }

  /** The leg asked a drained pool. */
  ghost predicate MetDrained(states: seq<World>, actions: seq<Action>, i: nat, l: nat)
    requires i < |states| == |actions| + 1
  {
    exists j :: 0 <= j < i && actions[j].Leg? && actions[j].leg == l && actions[j].act.GetOffer?
                && Drained(states[j], actions[j].act.listing)
  }

  lemma {:induction false} NoOffersHasItsGet(states: seq<World>, actions: seq<Action>, i: nat, l: nat)
    requires IsRun(states, actions) && i < |states| && l < |states[i].legs|
    requires states[i].legs[l] == Done(LegResult(NO_OFFERS, false))
    ensures MetDrained(states, actions, i, l)
  {
    if i > 0 {
      var w, a := states[i - 1], actions[i - 1];
      assert Step(w, a) == Some(states[i]);
      LegCountKept(w, a, states[i]);
      DiaryAgrees(states, actions, i, l);
      if a.Leg? && a.leg == l {
        assert a.act.GetOffer?;
        GetTells(w, l, a.act.listing, states[i]);
      } else {
        OtherStepKeepsLeg(w, a, states[i], l);
        NoOffersHasItsGet(states, actions, i - 1, l);
      }
    }
  }

  /** A leg ends with NO_OFFERS exactly when it asked the pool while nothing was queued and no
      refill was left, or the refill it caused listed nothing. */
  lemma NoOffersExactly(states: seq<World>, actions: seq<Action>, i: nat, l: nat)
    requires IsRun(states, actions) && i < |states| && l < |states[i].legs|
    ensures states[i].legs[l] == Done(LegResult(NO_OFFERS, false)) <==> MetDrained(states, actions, i, l)
  {
    if states[i].legs[l] == Done(LegResult(NO_OFFERS, false)) {
      NoOffersHasItsGet(states, actions, i, l);
    } else if MetDrained(states, actions, i, l) {
      var j :| 0 <= j < i && actions[j].Leg? && actions[j].leg == l && actions[j].act.GetOffer?
               && Drained(states[j], actions[j].act.listing);
      assert Step(states[j], actions[j]) == Some(states[j + 1]);
      LegCountKept(states[j], actions[j], states[j + 1]);
      GetTells(states[j], l, actions[j].act.listing, states[j + 1]);
      SettledStays(states, actions, j + 1, i, l);
      assert false;
    }
  }
}

/** The teardown that ends every rental, as the provider's own loop, and the transitions of the
    fleet it stands for. */
module Teardown {
  import opened Prelude
  import opened Ledger
  import opened FleetModel
  import opened Rounding

  const DESTROY_TRIES := 5

  /** What one destroy call answers, and whether it really stops the instance. */
  datatype Try = Try(reply: DestroyReply, effective: bool)

  predicate Confirms(t: Try) { t.reply.Acked? || t.reply.AlreadyGone? }

  /** Tries from k on: was one confirmed, is the host still up, how many were made. */
  function DestroyLoop(tries: nat -> Try, k: nat, up: bool): (bool, bool, nat)
    requires k <= DESTROY_TRIES
    decreases DESTROY_TRIES - k
  {
    if k == DESTROY_TRIES then (false, up, k)
    else
      var still := up && !tries(k).effective;
      if Confirms(tries(k)) then (true, still, k + 1) else DestroyLoop(tries, k + 1, still)
  }

  function Relisted(answered: bool, up: bool): Verify {
    if !answered then Unverified else if up then Present else Gone
  }

  /** The provider as one rental sees it. */
  class Provider {
    const tries: nat -> Try
    const answersList: bool
    var up: bool
    var calls: nat

    constructor (tries: nat -> Try, answersList: bool)
      ensures this.tries == tries && this.answersList == answersList && up && calls == 0
    {
      this.tries, this.answersList, up, calls := tries, answersList, true, 0;
    }

    method Destroy() returns (reply: DestroyReply)
      modifies this
      ensures reply == tries(old(calls)).reply && calls == old(calls) + 1
      ensures up == (old(up) && !tries(old(calls)).effective)
    {
      reply, up, calls := tries(calls).reply, up && !tries(calls).effective, calls + 1;
    }

    /** At most five destroys, then an independent look at the listing. The outcome a caller
        sees is clean only when a destroy was confirmed and the listing does not contradict it. */
    method TearDown() returns (torn: bool, verify: Verify, clean: bool)
      requires calls == 0
      modifies this
      ensures (torn, up, calls) == DestroyLoop(tries, 0, old(up))
      ensures verify == Relisted(answersList, up)
      ensures calls <= 5 && (!torn ==> calls == 5)
      ensures clean <==> torn && verify != Present
      ensures clean && old(up) && up ==> !answersList
    {
      DestroyLoopStopsAtFirst(tries, 0, up);
      torn := false;
      ghost var goal := DestroyLoop(tries, 0, up);
      while calls < DESTROY_TRIES && !torn
        invariant calls <= DESTROY_TRIES
        invariant goal == if torn then (true, up, calls) else DestroyLoop(tries, calls, up)
        decreases DESTROY_TRIES - calls, !torn
      {
        var reply := Destroy();
        torn := reply.Acked? || reply.AlreadyGone?;
      }
      verify := if !answersList then Unverified else if up then Present else Gone;
      clean := torn && verify != Present;
    }
  }

  /** The loop gives up only after five unconfirmed tries, and stops at the first confirmed. */
  lemma {:induction false} DestroyLoopStopsAtFirst(tries: nat -> Try, k: nat, up: bool)
    requires k <= DESTROY_TRIES
    ensures var (torn, still, made) := DestroyLoop(tries, k, up);
            && k <= made <= 5 && (!torn ==> made == 5)
            && (torn <==> exists i :: k <= i < DESTROY_TRIES && Confirms(tries(i)))
            && (torn ==> made > k && Confirms(tries(made - 1)))
            && (forall i :: k <= i < made - 1 ==> !Confirms(tries(i)))
            && (still <==> up && forall i :: k <= i < made ==> !tries(i).effective)
    decreases DESTROY_TRIES - k
  {
    if k < DESTROY_TRIES && !Confirms(tries(k)) {
      DestroyLoopStopsAtFirst(tries, k + 1, up && !tries(k).effective);
    }
  }

  // ---- the same thing as steps of the fleet

  ghost function Follow(w: World, actions: seq<Action>): Option<World>
    decreases |actions|
  {
    if actions == [] then Some(w)
    else
      match Step(w, actions[0])
      case None => None
      case Some(v) => Follow(v, actions[1..])
  }

  function DestroyActions(l: nat, tries: nat -> Try, k: nat): seq<Action>
    requires k < DESTROY_TRIES
    decreases DESTROY_TRIES - k
  {
    [Leg(l, DestroyTry(tries(k).reply, tries(k).effective))]
    + if Confirms(tries(k)) || k + 1 == DESTROY_TRIES then [] else DestroyActions(l, tries, k + 1)
  }

  /** The world w, but with leg l at this stage and its host up or not. */
  function At(w: World, l: nat, stage: Stage, up: bool): World
    requires l < |w.legs| && w.legs[l].Holding?
  {
    var r := w.legs[l].rental;
    w.(legs := w.legs[l := Holding(r, stage)], live := if up then w.live else w.live - {r.id})
  }

  function AfterTry(exit: Exit, billed: real, k: nat, t: Try): Stage {
    if Confirms(t) then Verifying(exit, billed, true)
    else if k + 1 < DESTROY_TRIES then TearingDown(exit, billed, k + 1)
    else Verifying(exit, billed, false)
  }

  lemma OneDestroy(w: World, l: nat, exit: Exit, billed: real, k: nat, up: bool, t: Try)
    requires l < |w.legs| && !w.crashed && w.legs[l].Holding? && k < DESTROY_TRIES
    ensures Step(At(w, l, TearingDown(exit, billed, k), up), Leg(l, DestroyTry(t.reply, t.effective)))
         == Some(At(w, l, AfterTry(exit, billed, k, t), up && !t.effective))
  {
    var v := At(w, l, TearingDown(exit, billed, k), up);
    var r := w.legs[l].rental;
    var next := Holding(r, AfterTry(exit, billed, k, t));
    assert v.legs[l := next] == w.legs[l := next];
    assert w.live - {r.id} - {r.id} == w.live - {r.id};
  }

  lemma FollowStep(w: World, a: Action, rest: seq<Action>)
    requires Step(w, a).Some?
    ensures Follow(w, [a] + rest) == Follow(Step(w, a).value, rest)
  {
    assert ([a] + rest)[1..] == rest;
  }

  /** The fleet's steps for tries k and on end where the loop ends. */
  ghost predicate FollowsLoop(w: World, l: nat, exit: Exit, billed: real, k: nat, up: bool, tries: nat -> Try)
    requires l < |w.legs| && w.legs[l].Holding? && k < DESTROY_TRIES
  {
    var (torn, still, made) := DestroyLoop(tries, k, up);
    Follow(At(w, l, TearingDown(exit, billed, k), up), DestroyActions(l, tries, k))
    == Some(At(w, l, Verifying(exit, billed, torn), still))
  }

  /** The last try: confirmed, or the fifth. */
  lemma FollowLastDestroy(w: World, l: nat, exit: Exit, billed: real, k: nat, up: bool, tries: nat -> Try)
    requires l < |w.legs| && !w.crashed && w.legs[l].Holding? && k < DESTROY_TRIES
    requires Confirms(tries(k)) || k + 1 == DESTROY_TRIES
    ensures FollowsLoop(w, l, exit, billed, k, up, tries)
  {
    var a := Leg(l, DestroyTry(tries(k).reply, tries(k).effective));
    OneDestroy(w, l, exit, billed, k, up, tries(k));
    FollowStep(At(w, l, TearingDown(exit, billed, k), up), a, []);
    assert [a] + [] == DestroyActions(l, tries, k);
  }

  /** Any other try leads to the next. */
  lemma FollowFailedDestroy(w: World, l: nat, exit: Exit, billed: real, k: nat, up: bool, tries: nat -> Try)
    requires l < |w.legs| && !w.crashed && w.legs[l].Holding? && k + 1 < DESTROY_TRIES && !Confirms(tries(k))
    requires FollowsLoop(w, l, exit, billed, k + 1, up && !tries(k).effective, tries)
    ensures FollowsLoop(w, l, exit, billed, k, up, tries)
  {
    var a := Leg(l, DestroyTry(tries(k).reply, tries(k).effective));
    OneDestroy(w, l, exit, billed, k, up, tries(k));
    FollowStep(At(w, l, TearingDown(exit, billed, k), up), a, DestroyActions(l, tries, k + 1));
  }

  lemma {:induction false} FollowDestroys(w: World, l: nat, exit: Exit, billed: real, k: nat, up: bool,
                                          tries: nat -> Try)
    requires l < |w.legs| && !w.crashed && w.legs[l].Holding? && k < DESTROY_TRIES
    ensures FollowsLoop(w, l, exit, billed, k, up, tries)
    decreases DESTROY_TRIES - k
  {
    if Confirms(tries(k)) || k + 1 == DESTROY_TRIES {
      FollowLastDestroy(w, l, exit, billed, k, up, tries);
    } else {
      FollowDestroys(w, l, exit, billed, k + 1, up && !tries(k).effective, tries);
      FollowFailedDestroy(w, l, exit, billed, k, up, tries);
    }
  }

  ghost function TeardownActions(l: nat, tries: nat -> Try, answered: bool): seq<Action> {
    DestroyActions(l, tries, 0) + [Leg(l, Relist(answered)), Leg(l, LogDestroyed)]
  }

  lemma {:induction false} FollowAppend(w: World, a: seq<Action>, b: seq<Action>)
    ensures Follow(w, a + b) == match Follow(w, a) case None => None case Some(v) => Follow(v, b)
    decreases |a|
  {
    if a == [] {
      assert a + b == b;
    } else {
      assert (a + b)[0] == a[0] && (a + b)[1..] == a[1..] + b;
      if Step(w, a[0]).Some? {
        FollowAppend(Step(w, a[0]).value, a[1..], b);
      }
    }
  }

  lemma VerifyAndLog(w: World, l: nat, exit: Exit, billed: real, torn: bool, up: bool, answered: bool)
    requires l < |w.legs| && !w.crashed && w.legs[l].Holding? && w.legs[l].rental.id in w.live
    ensures Follow(At(w, l, Verifying(exit, billed, torn), up), [Leg(l, Relist(answered)), Leg(l, LogDestroyed)])
         == Some(Closed(w, l, exit, billed, torn, Relisted(answered, up), up))
  {
    var v := At(w, l, Verifying(exit, billed, torn), up);
    var u := At(w, l, Logging(exit, billed, torn, Relisted(answered, up)), up);
    var relist, log := Leg(l, Relist(answered)), Leg(l, LogDestroyed);
    var r := w.legs[l].rental;
    assert v.legs[l := u.legs[l]] == u.legs;
    assert Step(v, relist) == Some(u);
    var next := AfterTeardown(exit, torn, Relisted(answered, up));
    assert u.legs[l := next] == w.legs[l := next];
    assert Step(u, log) == Some(Closed(w, l, exit, billed, torn, Relisted(answered, up), up));
    FollowStep(v, relist, [log]);
    FollowStep(u, log, []);
    assert [relist] + [log] == [relist, log] && [log] + [] == [log];
  }

  /** The world after a whole teardown: the leg's next phase, and one `destroyed` row. */
  function Closed(w: World, l: nat, exit: Exit, billed: real, torn: bool, verify: Verify, up: bool): World
    requires l < |w.legs| && w.legs[l].Holding?
  {
    var r := w.legs[l].rental;
    w.(legs := w.legs[l := AfterTeardown(exit, torn, verify)],
       live := if up then w.live else w.live - {r.id},
       rows := w.rows + [Row(RoundTo(w.now, 1000), Destroyed(r.id, torn, verify, EstimatedCost(r, billed), false))])
  }

  /** The provider's loop is the fleet's transitions: with nobody else moving, the steps of one
      teardown leave the leg, the ledger and the marketplace exactly as the loop's answers say. */
  lemma TeardownIsTheLoop(w: World, l: nat, exit: Exit, billed: real, tries: nat -> Try, answered: bool)
    requires l < |w.legs| && !w.crashed && w.legs[l].Holding? && w.legs[l].rental.id in w.live
    requires w.legs[l].stage == TearingDown(exit, billed, 0)
    ensures var (torn, up, made) := DestroyLoop(tries, 0, true);
            Follow(w, TeardownActions(l, tries, answered))
            == Some(Closed(w, l, exit, billed, torn, Relisted(answered, up), up))
  {
    var loop := DestroyLoop(tries, 0, true);
    assert At(w, l, TearingDown(exit, billed, 0), true) == w;
    FollowDestroys(w, l, exit, billed, 0, true, tries);
    FollowAppend(w, DestroyActions(l, tries, 0), [Leg(l, Relist(answered)), Leg(l, LogDestroyed)]);
    VerifyAndLog(w, l, exit, billed, loop.0, loop.1, answered);
  }
}

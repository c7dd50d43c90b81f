/** What every step of the fleet keeps about hosts, ledger rows and tracking. */
module FleetSafety {
  import opened Prelude
  import opened Rounding
  import opened Ledger
  import opened FleetModel

  /** The four id sets the invariant needs from the ledger. */
  datatype Books = Books(seen: set<Id>, rented: set<Id>, closed: set<Id>, gone: set<Id>)

  ghost function BooksOf(rows: seq<Row>): Books {
    Books(Seen(rows), RentedIds(rows), ClosedIds(rows), ConfirmedGone(rows))
  }

  ghost function Enter(b: Books, e: Event): Books {
    match e
    case Rented(id, _) => b.(seen := b.seen + {id}, rented := b.rented + {id})
    case Running(id) => b.(seen := b.seen + {id})
    case Destroyed(id, _, verify, _, _) =>
      b.(closed := b.closed + {id}, gone := if verify.Gone? then b.gone + {id} else b.gone)
    case Other => b
  }

  lemma BooksAppend(rows: seq<Row>, r: Row)
    ensures BooksOf(rows + [r]) == Enter(BooksOf(rows), r.event)
  {
    AppendRow(rows, r);
  }

  ghost predicate Holds(p: Phase, id: Id) {
    p.Holding? && p.rental.id == id
  }

  ghost predicate HeldBy(w: World, id: Id) {
    id in w.owner && w.owner[id] < |w.legs| && Holds(w.legs[w.owner[id]], id)
  }

  /** Every leg's host is its own, known only to it until the `rented` row is written,
      and open in the ledger from then until the `destroyed` row. */
  ghost predicate LegWired(w: World, b: Books, l: nat)
    requires l < |w.legs|
  {
    w.legs[l].Holding? ==>
      var id := w.legs[l].rental.id;
      && id in w.owner && w.owner[id] == l && id !in w.unreported && id !in b.closed
      && (if w.legs[l].stage.Created? then id !in b.seen else id in b.rented)
      && (w.legs[l].stage.Logging? && w.legs[l].stage.verify.Gone? ==> id !in w.live)
  }

  ghost predicate IdWired(w: World, b: Books, id: Id) {
    && (id in w.live || id in w.unreported || id in b.seen || id in b.closed || id in w.tracked ==> id in w.owner)
    && (id in w.owner ==> id < w.nextId && w.owner[id] < |w.legs|)
    && (id in b.seen || id in b.closed ==> id !in w.unreported)
    && (id in b.seen <==> id in b.rented)
    && (id in b.rented && id !in b.closed ==> HeldBy(w, id))
    && (id in w.live && id !in b.rented && id !in w.unreported ==>
          HeldBy(w, id) && w.legs[w.owner[id]].stage.Created?)
    && (id in b.gone ==> id !in w.live && id in b.closed)
    && (id in w.tracked <==> HeldBy(w, id) && w.legs[w.owner[id]].stage.Working?)
  }

  ghost predicate WiredWith(w: World, b: Books) {
    && (forall l :: 0 <= l < |w.legs| ==> LegWired(w, b, l))
    && (forall id :: IdWired(w, b, id))
    && w.stranded == {}
  }

  ghost predicate Wired(w: World) {
    WiredWith(w, BooksOf(w.rows))
  }

  lemma BeginWired(cfg: Settings, pending: nat, listing: seq<Offer>)
    ensures Wired(Begin(cfg, pending, listing))
  {
  }

  /** Moving a leg that holds no host to a phase without a host touches nothing. */
  lemma HostlessMoveWired(w: World, b: Books, l: nat, v: World)
    requires WiredWith(w, b) && l < |w.legs| && !w.legs[l].Holding?
    requires |v.legs| == |w.legs| && v.legs == w.legs[l := v.legs[l]] && !v.legs[l].Holding?
    requires v.tracked == w.tracked && v.stranded == w.stranded && v.live == w.live
    requires v.nextId == w.nextId && v.owner == w.owner && v.unreported == w.unreported
    ensures WiredWith(v, b)
  {
    forall id ensures IdWired(v, b, id) {
      assert IdWired(w, b, id);
    }
    forall k | 0 <= k < |v.legs| ensures LegWired(v, b, k) {
      assert LegWired(w, b, k);
    }
  }

  lemma CreateWired(w: World, b: Books, l: nat, v: World)
    requires WiredWith(w, b) && l < |w.legs| && w.legs[l].Renting?
    requires
      || v == Create(SetLeg(w, l, Holding(Rental(w.legs[l].offer, w.legs[l].t0, w.nextId), Created)), l)
      || (exists p: Phase :: !p.Holding? && v == Create(SetLeg(w, l, p), l).(unreported := w.unreported + {w.nextId}))
    ensures WiredWith(v, b)
  {
    assert IdWired(w, b, w.nextId);
    forall id ensures IdWired(v, b, id) {
      assert IdWired(w, b, id);
    }
    forall k | 0 <= k < |v.legs| ensures LegWired(v, b, k) {
      assert LegWired(w, b, k);
    }
  }

  /** A step of a leg that keeps its host, or hands it back while closing its row. */
  lemma HostStepWired(w: World, b: Books, l: nat, a: LegAct, v: World, c: Books)
    requires WiredWith(w, b) && l < |w.legs| && w.legs[l].Holding? && HostStep(w, l, a) == Some(v)
    requires c == if |v.rows| == |w.rows| then b else Enter(b, v.rows[|w.rows|].event)
    ensures WiredWith(v, c)
  {
    forall id ensures IdWired(v, c, id) {
      HostStepWiredId(w, b, l, a, v, c, id);
    }
    forall k | 0 <= k < |v.legs| ensures LegWired(v, c, k) {
      HostStepWiredLeg(w, b, l, a, v, c, k);
    }
  }

  lemma HostStepWiredId(w: World, b: Books, l: nat, a: LegAct, v: World, c: Books, id: Id)
    requires WiredWith(w, b) && l < |w.legs| && w.legs[l].Holding? && HostStep(w, l, a) == Some(v)
    requires c == if |v.rows| == |w.rows| then b else Enter(b, v.rows[|w.rows|].event)
    ensures IdWired(v, c, id)
  {
    assert LegWired(w, b, l) && IdWired(w, b, id) && IdWired(w, b, w.legs[l].rental.id);
  }

  lemma HostStepWiredLeg(w: World, b: Books, l: nat, a: LegAct, v: World, c: Books, k: nat)
    requires WiredWith(w, b) && l < |w.legs| && w.legs[l].Holding? && HostStep(w, l, a) == Some(v)
    requires c == (if |v.rows| == |w.rows| then b else Enter(b, v.rows[|w.rows|].event)) && k < |v.legs|
    ensures LegWired(v, c, k)
  {
    assert LegWired(w, b, l) && LegWired(w, b, k) && IdWired(w, b, w.legs[l].rental.id);
  }

  ghost predicate AppendsAtMostOne(w: World, v: World) {
    v.rows == w.rows || (|v.rows| == |w.rows| + 1 && v.rows == w.rows + [v.rows[|w.rows|]])
  }

  lemma HostStepAppends(w: World, l: nat, a: LegAct, v: World)
    requires l < |w.legs| && w.legs[l].Holding? && HostStep(w, l, a) == Some(v)
    ensures AppendsAtMostOne(w, v)
  {
  }

  lemma MainStepAppendsNothing(w: World, a: MainAct, v: World)
    requires MainStep(w, a) == Some(v)
    ensures v.rows == w.rows
  {
  }

  lemma HostlessStepAppendsNothing(w: World, l: nat, a: LegAct, v: World)
    requires Step(w, Leg(l, a)) == Some(v) && !w.legs[l].Holding?
    ensures v.rows == w.rows
  {
  }

  /** A step writes at most one row, and only at the end of the log. */
  lemma StepAppendsAtMostOneRow(w: World, a: Action, v: World)
    requires Step(w, a) == Some(v)
    ensures AppendsAtMostOne(w, v)
  {
    match a {
      case Environment(_) =>
      case Main(todo) => MainStepAppendsNothing(w, todo, v);
      case Leg(l, act) =>
        if w.legs[l].Holding? {
          HostStepAppends(w, l, act, v);
        } else {
          HostlessStepAppendsNothing(w, l, act, v);
        }
    }
  }

  ghost function BooksAfter(b: Books, w: World, v: World): Books {
    if |v.rows| <= |w.rows| then b else Enter(b, v.rows[|w.rows|].event)
  }

  lemma BooksFollowRows(w: World, a: Action, v: World)
    requires Step(w, a) == Some(v)
    ensures BooksOf(v.rows) == BooksAfter(BooksOf(w.rows), w, v)
  {
    StepAppendsAtMostOneRow(w, a, v);
    if v.rows != w.rows {
      BooksAppend(w.rows, v.rows[|w.rows|]);
    }
  }

  lemma LegStepWired(w: World, b: Books, l: nat, act: LegAct, v: World, c: Books)
    requires WiredWith(w, b) && Step(w, Leg(l, act)) == Some(v) && c == BooksAfter(b, w, v)
    ensures WiredWith(v, c)
  {
    if w.legs[l].Holding? {
      HostStepWired(w, b, l, act, v, c);
    } else if act.CreateSucceeds? || (act.CreateFails? && act.acted) {
      CreateWired(w, b, l, v);
    } else {
      HostlessMoveWired(w, b, l, v);
    }
  }

  lemma StepWired(w: World, a: Action, v: World)
    requires Wired(w) && Step(w, a) == Some(v)
    ensures Wired(v)
  {
    var b := BooksOf(w.rows);
    BooksFollowRows(w, a, v);
    match a {
      case Environment(event) => EnvironmentWired(w, b, event, v);
      case Main(todo) => MainWired(w, b, todo, v);
      case Leg(l, act) => LegStepWired(w, b, l, act, v, BooksOf(v.rows));
    }
  }

  lemma EnvironmentWired(w: World, b: Books, a: EnvAct, v: World)
    requires WiredWith(w, b) && EnvironmentStep(w, a) == Some(v)
    ensures WiredWith(v, b)
  {
    forall id ensures IdWired(v, b, id) {
      assert IdWired(w, b, id);
    }
    forall k | 0 <= k < |v.legs| ensures LegWired(v, b, k) {
      assert LegWired(w, b, k);
    }
  }

  /** The final sweep finds nothing: every leg has settled, so nothing is tracked. */
  lemma SweepWired(w: World, b: Books, v: World)
    requires WiredWith(w, b) && MainStep(w, Shutdown) == Some(v)
    ensures WiredWith(v, b)
  {
    forall id ensures id !in w.tracked {
      assert IdWired(w, b, id);
    }
    assert v.live == w.live && v.legs == w.legs;
    SameHostsWired(w, b, v);
  }

  lemma SameHostsWired(w: World, b: Books, v: World)
    requires WiredWith(w, b) && v.legs == w.legs && v.live == w.live && v.stranded == {}
    requires v.tracked == w.tracked && v.nextId == w.nextId && v.owner == w.owner && v.unreported == w.unreported
    ensures WiredWith(v, b)
  {
    forall id ensures IdWired(v, b, id) {
      assert IdWired(w, b, id);
    }
    forall k | 0 <= k < |v.legs| ensures LegWired(v, b, k) {
      assert LegWired(w, b, k);
    }
  }

  lemma MainWired(w: World, b: Books, a: MainAct, v: World)
    requires WiredWith(w, b) && MainStep(w, a) == Some(v)
    ensures WiredWith(v, b)
  {
    if a.Shutdown? {
      SweepWired(w, b, v);
    } else if v.legs == w.legs {
      SameHostsWired(w, b, v);
    } else {
      HostlessMoveWired(w, b, w.main.next, v);
    }
  }
}

/** What a reap may touch and what it must: its report, read against the listing, the ledger's rows,
    the options and the marketplace's answers alone. */
module ReapScope {
  import opened Prelude
  import opened Rounding
  import opened Ledger
  import opened Reap

  // ---- the ledger and the listing

  /** Some `rented` or `running` row names the id, and no `destroyed` row confirms it gone. */
  ghost predicate LeakedByRows(rows: seq<Row>, id: Id) {
    && (exists r :: r in rows && (r.event.Rented? || r.event.Running?) && r.event.id == id)
    && (forall r :: r in rows && r.event.Destroyed? && r.event.id == id ==> !r.event.verify.Gone?)
  }

  /** The id is listed on an instance with the label, if one is asked for, and of a known age no
      smaller than the one asked for. */
  ghost predicate ListedInScope(live: seq<Instance>, f: Filters, id: Id) {
    exists i :: i in live && i.id == id && (f.tag.None? || i.tag == f.tag)
                && (f.olderThan.None? || (i.age.Some? && f.olderThan.value <= i.age.value))
  }

  lemma LeakedIsByRows(rows: seq<Row>, id: Id)
    ensures id in Leaked(rows) <==> LeakedByRows(rows, id)
  {
  }

  lemma TargetsAreInScope(live: seq<Instance>, rows: seq<Row>, f: Filters, id: Id)
    ensures id in IdsOf(Targets(live, Leaked(rows), f)) <==> LeakedByRows(rows, id) && ListedInScope(live, f, id)
  {
    LeakedIsByRows(rows, id);
    forall i ensures i in Targets(live, Leaked(rows), f) <==> i in live && Selected(i, Leaked(rows), f) {
      TargetsAreSelected(live, Leaked(rows), f, i);
    }
    if LeakedByRows(rows, id) && ListedInScope(live, f, id) {
      var i :| i in live && i.id == id && (f.tag.None? || i.tag == f.tag)
               && (f.olderThan.None? || (i.age.Some? && f.olderThan.value <= i.age.value));
      assert i in Targets(live, Leaked(rows), f);
    }
  }

  /** The targets are picked one by one, in the order of the listing. */
  lemma {:induction false} TargetsInOrder(live: seq<Instance>, more: seq<Instance>, leaked: set<Id>, f: Filters)
    ensures Targets(live + more, leaked, f) == Targets(live, leaked, f) + Targets(more, leaked, f)
    ensures |Targets(more, leaked, f)| <= |more|
  {
    if more == [] {
      assert live + more == live;
    } else {
      var n := |more| - 1;
      assert (live + more)[..|live + more| - 1] == live + more[..n];
      TargetsInOrder(live, more[..n], leaked, f);
    }
  }

  // ---- the marketplace's answers

  /** The instance is gone: the call went through, or failed on an instance that is not there. */
  predicate Clears(a: Attempt) {
    || a.Succeeds?
    || (match a.fault.code
        case Some(c) => c == 404 || c == 410
        case None => !a.fault.isBug && a.fault.saysGone)
  }

  /** Worth another try: no refusal, no defect and no word that the instance is gone. */
  predicate WorthRetrying(a: Attempt) {
    && a.Raises?
    && match a.fault.code
       case Some(c) => c != 404 && c != 410 && c != 401 && c != 403
       case None => !a.fault.isBug && !a.fault.saysGone && !a.fault.saysAuth
  }

  /** Within the tries, an answer clears the instance and every one before it was worth retrying. */
  ghost predicate Cleared(market: Market, id: Id, retries: nat) {
    exists n :: 0 <= n < retries && Clears(market(id, n)) && RetriedUntil(market, id, 0, n)
  }

  ghost predicate RetriedUntil(market: Market, id: Id, from: nat, n: int) {
    forall k :: from <= k < n ==> WorthRetrying(market(id, k))
  }

  lemma {:induction false} OutcomeIsCleared(market: Market, id: Id, from: nat, retries: nat)
    requires from <= retries
    ensures DestroyOutcome(market, id, from, retries) != StillThere
       <==> exists n :: from <= n < retries && Clears(market(id, n)) && RetriedUntil(market, id, from, n)
    decreases retries - from
  {
    if from < retries {
      if Clears(market(id, from)) {
        assert RetriedUntil(market, id, from, from);
      } else if WorthRetrying(market(id, from)) {
        OutcomeIsCleared(market, id, from + 1, retries);
        forall n | from <= n < retries && Clears(market(id, n))
          ensures RetriedUntil(market, id, from, n) <==> from < n && RetriedUntil(market, id, from + 1, n)
        {
        }
      } else {
        forall n | from <= n < retries && Clears(market(id, n)) ensures !RetriedUntil(market, id, from, n) {
          assert from < n;
        }
      }
    }
  }

  // ---- the report

  /** A reap kills exactly the leaked, listed instances in scope that the marketplace clears, and
      reports as failed exactly the other ones in scope: whatever is unlisted, not leaked, labelled
      differently, of unknown age or too young is never touched. */
  lemma ReapTouchesExactly(rows: seq<Row>, live: seq<Instance>, f: Filters, market: Market, retries: nat,
                           others: Meanwhile, now: real, r: Reaped, id: Id)
    requires r == ReapSpec(rows, live, f, market, retries, others, now)
    ensures id in r.killed
       <==> LeakedByRows(rows, id) && ListedInScope(live, f, id) && Cleared(market, id, retries)
    ensures id in r.failed
       <==> LeakedByRows(rows, id) && ListedInScope(live, f, id) && !Cleared(market, id, retries)
  {
    TargetsAreInScope(live, rows, f, id);
    OutcomeIsCleared(market, id, 0, retries);
  }

  /** Options that ask for less: the same label or none, and a smaller age or none. */
  predicate Wider(f: Filters, g: Filters) {
    && (g.tag.None? || g.tag == f.tag)
    && (g.olderThan.None? || (f.olderThan.Some? && g.olderThan.value <= f.olderThan.value))
  }

  /** A filter only narrows: whatever a reap touches, it touches under every wider filter, with the
      same result. */
  lemma FiltersOnlyNarrow(rows: seq<Row>, live: seq<Instance>, f: Filters, g: Filters, market: Market,
                          retries: nat, others: Meanwhile, now: real)
    requires Wider(f, g)
    ensures var narrow, wide := ReapSpec(rows, live, f, market, retries, others, now),
                                ReapSpec(rows, live, g, market, retries, others, now);
            narrow.killed <= wide.killed && narrow.failed <= wide.failed
  {
    var narrow, wide := ReapSpec(rows, live, f, market, retries, others, now),
                        ReapSpec(rows, live, g, market, retries, others, now);
    forall id ensures ListedInScope(live, f, id) ==> ListedInScope(live, g, id) {
    }
    forall id
      ensures id in narrow.killed ==> id in wide.killed
      ensures id in narrow.failed ==> id in wide.failed
    {
      ReapTouchesExactly(rows, live, f, market, retries, others, now, narrow, id);
      ReapTouchesExactly(rows, live, g, market, retries, others, now, wide, id);
    }
  }

  /** The last `rented` row of the id is more than 120 seconds old; without one, the clock counts. */
  ghost predicate PastGrace(rents: seq<Row>, id: Id, now: real) {
    && (forall n :: 0 <= n < |rents| && IsRentOf(rents[n], id) && LaterRentsNot(rents, n, id)
                    ==> now - rents[n].ts > 120.0)
    && ((forall r :: r in rents ==> !IsRentOf(r, id)) ==> now > 120.0)
  }

  predicate IsRentOf(row: Row, id: Id) { row.event.Rented? && row.event.id == id }

  predicate LaterRentsNot(rents: seq<Row>, n: nat, id: Id) {
    forall m :: n < m < |rents| ==> !IsRentOf(rents[m], id)
  }

  lemma {:induction false} RentRowIsLast(rows: seq<Row>, n: nat, id: Id)
    requires n < |rows| && IsRentOf(rows[n], id) && LaterRentsNot(rows, n, id)
    ensures RentRow(rows, id) == Some(rows[n])
  {
    if n < |rows| - 1 {
      RentRowIsLast(rows[..|rows| - 1], n, id);
    }
  }

  lemma {:induction false} RentRowIsThere(rows: seq<Row>, id: Id)
    requires RentRow(rows, id).Some?
    ensures exists n :: 0 <= n < |rows| && RentRow(rows, id) == Some(rows[n]) && IsRentOf(rows[n], id)
                        && LaterRentsNot(rows, n, id)
  {
    var last := |rows| - 1;
    if IsRentOf(rows[last], id) {
      assert LaterRentsNot(rows, last, id);
    } else {
      RentRowIsThere(rows[..last], id);
      var n :| 0 <= n < last && RentRow(rows[..last], id) == Some(rows[n]) && IsRentOf(rows[n], id)
               && LaterRentsNot(rows[..last], n, id);
      assert LaterRentsNot(rows, n, id);
    }
  }

  lemma StampTellsGrace(rents: seq<Row>, id: Id, now: real)
    ensures now - StampOf(rents, id) > GRACE <==> PastGrace(rents, id, now)
  {
    if RentRow(rents, id).Some? {
      RentRowIsThere(rents, id);
      var n :| 0 <= n < |rents| && RentRow(rents, id) == Some(rents[n]) && IsRentOf(rents[n], id)
               && LaterRentsNot(rents, n, id);
      assert rents[n] in rents;
      forall m | 0 <= m < |rents| && IsRentOf(rents[m], id) && LaterRentsNot(rents, m, id) ensures m == n {
      }
    } else {
      assert forall r :: r in rents ==> !IsRentOf(r, id);
    }
  }

  /** A reap closes as vanished exactly the leaked ids that are not listed, that it did not just
      kill, and whose last `rented` row is not a recent one; one without such a row counts as old. */
  lemma VanishesExactly(rows: seq<Row>, live: seq<Instance>, f: Filters, market: Market, retries: nat,
                        others: Meanwhile, now: real, r: Reaped, id: Id)
    requires r == ReapSpec(rows, live, f, market, retries, others, now)
    ensures id in r.vanished
       <==> && LeakedByRows(rows + others.early + others.late, id) && (forall i :: i in live ==> i.id != id)
            && id !in r.killed && PastGrace(rows + others.early, id, now)
  {
    LeakedIsByRows(rows + others.early + others.late, id);
    StampTellsGrace(rows + others.early, id, now);
  }

  // ---- the rows a reap writes

  /** The ids are these, each once, in ascending order. */
  ghost predicate InOrder(ids: seq<Id>, s: set<Id>) {
    && |ids| == |s| && (forall id :: id in ids <==> id in s)
    && forall i, j :: 0 <= i < j < |ids| ==> ids[i] < ids[j]
  }

  /** A confirmed, reconciled `destroyed` row, stamped with the reap's clock, that costs nothing
      unless the reap killed the instance. */
  predicate IsClosing(row: Row, id: Id, killed: bool, now: real) {
    && row.ts == RoundTo(now, 1000) && row.event.Destroyed? && row.event.id == id
    && row.event.torn && row.event.verify == Gone && row.event.reconciled
    && (!killed ==> row.event.cost == 0.0)
  }

  lemma {:induction false} ClosingRowsAre(rents: seq<Row>, ids: seq<Id>, killed: set<Id>, now: real)
    ensures var more := ClosingRows(rents, ids, killed, now);
            |more| == |ids| && forall k :: 0 <= k < |ids| ==> IsClosing(more[k], ids[k], ids[k] in killed, now)
  {
    if ids != [] {
      ClosingRowsAre(rents, ids[..|ids| - 1], killed, now);
    }
  }

  lemma KilledThenVanished(killed: set<Id>, vanished: set<Id>, closed: seq<Id>)
    requires closed == Sorted(killed) + Sorted(vanished)
    ensures |closed| == |killed| + |vanished|
    ensures InOrder(closed[..|killed|], killed) && InOrder(closed[|killed|..], vanished)
  {
    assert closed[..|killed|] == Sorted(killed) && closed[|killed|..] == Sorted(vanished);
  }

  /** What a reap appends: one such row for every killed id in ascending order, then one for every
      vanished id in ascending order. */
  lemma ReapWritesExactly(rows: seq<Row>, live: seq<Instance>, f: Filters, market: Market, retries: nat,
                          others: Meanwhile, now: real, r: Reaped) returns (more: seq<Row>)
    requires r == ReapSpec(rows, live, f, market, retries, others, now)
    ensures r.rows == rows + others.early + others.late + more && |more| == |r.closed| == |r.killed| + |r.vanished|
    ensures InOrder(r.closed[..|r.killed|], r.killed) && InOrder(r.closed[|r.killed|..], r.vanished)
    ensures forall k :: 0 <= k < |more| ==> IsClosing(more[k], r.closed[k], r.closed[k] in r.killed, now)
  {
    more := ClosingRows(rows + others.early, r.closed, r.killed, now);
    ClosingRowsAre(rows + others.early, r.closed, r.killed, now);
    KilledThenVanished(r.killed, r.vanished, r.closed);
  }
}

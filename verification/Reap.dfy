/** The reaper: find what the ledger leaked, destroy what is still live, and write the
    `destroyed` rows a dead driver never wrote. */
module Reap {
  import opened Prelude
  import opened Rounding
  import opened Sums
  import opened Ledger
  import opened Budget

  /** One entry of the live listing, with what the filters look at. */
  datatype Instance = Instance(id: Id, dph: real, tag: Option<string>, age: Option<real>)

  /** What a failed destroy raised. */
  datatype Fault = Fault(code: Option<int>, isBug: bool, saysGone: bool, saysAuth: bool)

  datatype Kind = Transient | AlreadyGone | Auth | Bug

  /** A structured status code decides alone; wording is only the fallback. */
  function Classify(f: Fault): Kind {
    match f.code
    case Some(c) =>
      if c == 404 || c == 410 then AlreadyGone
      else if c == 401 || c == 403 then Auth
      else Transient
    case None =>
      if f.isBug then Bug
      else if f.saysGone then AlreadyGone
      else if f.saysAuth then Auth
      else Transient
  }

  datatype Attempt = Succeeds | Raises(fault: Fault)

  datatype Destroyed = WasDestroyed | WasGone | StillThere

  /** An attempt that ends the retry loop, whichever way. */
  predicate Conclusive(a: Attempt) {
    a.Succeeds? || Classify(a.fault) != Transient
  }

  function Conclusion(a: Attempt): Destroyed
    requires Conclusive(a)
  {
    if a.Succeeds? then WasDestroyed
    else if Classify(a.fault) == AlreadyGone then WasGone
    else StillThere
  }

  /** What the marketplace would answer to each attempt on each instance. */
  type Market = (Id, nat) -> Attempt

  /** The first conclusive attempt within the budget decides. */
  function DestroyOutcome(market: Market, id: Id, from: nat, retries: nat): Destroyed
    requires from <= retries
    decreases retries - from
  {
    if from == retries then StillThere
    else if Conclusive(market(id, from)) then Conclusion(market(id, from))
    else DestroyOutcome(market, id, from + 1, retries)
  }

  method DestroyWithRetry(market: Market, id: Id, retries: nat) returns (status: Destroyed, attempts: nat)
    ensures status == DestroyOutcome(market, id, 0, retries)
    ensures attempts <= retries
    ensures forall k :: 0 <= k < attempts - 1 ==> !Conclusive(market(id, k))
    ensures status != StillThere ==> attempts > 0 && Conclusive(market(id, attempts - 1))
  {
    attempts := 0;
    while attempts < retries
      invariant attempts <= retries
      invariant forall k :: 0 <= k < attempts ==> !Conclusive(market(id, k))
      invariant DestroyOutcome(market, id, 0, retries) == DestroyOutcome(market, id, attempts, retries)
    {
      var answer := market(id, attempts);
      attempts := attempts + 1;
      match answer {
        case Succeeds => return WasDestroyed, attempts;
        case Raises(fault) =>
          match Classify(fault) {
            case AlreadyGone => return WasGone, attempts;
            case Auth => return StillThere, attempts;
            case Bug => return StillThere, attempts;
            case Transient =>
          }
      }
    }
    return StillThere, attempts;
  }

  /** Scans the file line by line, skipping what does not parse. */
  method LeakedIds(lines: seq<Line>) returns (leaked: set<Id>)
    ensures leaked == Leaked(Rows(lines))
  {
    var seen: set<Id>, gone: set<Id> := {}, {};
    for i := 0 to |lines|
      invariant seen == Seen(Rows(lines[..i])) && gone == ConfirmedGone(Rows(lines[..i]))
    {
      assert lines[..i + 1][..i] == lines[..i];
      if lines[i].Entry? {
        AppendRow(Rows(lines[..i]), lines[i].row);
        match lines[i].row.event {
          case Rented(id, _) => seen := seen + {id};
          case Running(id) => seen := seen + {id};
          case Destroyed(id, _, verify, _, _) =>
            if verify == Gone {
              gone := gone + {id};
            }
          case Other =>
        }
      }
    }
    assert lines[..|lines|] == lines;
    return seen - gone;
  }

  /** instance id to its last `rented` row. */
  method RentRows(lines: seq<Line>) returns (rents: map<Id, Row>)
    ensures rents.Keys == RentedIds(Rows(lines))
    ensures forall id :: id in rents ==> RentRow(Rows(lines), id) == Some(rents[id])
  {
    rents := map[];
    for i := 0 to |lines|
      invariant rents.Keys == RentedIds(Rows(lines[..i]))
      invariant forall id :: id in rents ==> RentRow(Rows(lines[..i]), id) == Some(rents[id])
    {
      assert lines[..i + 1][..i] == lines[..i];
      if lines[i].Entry? {
        AppendRow(Rows(lines[..i]), lines[i].row);
        if lines[i].row.event.Rented? {
          rents := rents[lines[i].row.event.id := lines[i].row];
        }
      }
    }
    assert lines[..|lines|] == lines;
  }

  // ---- what a reap targets, kills and finds vanished

  datatype Filters = Filters(tag: Option<string>, olderThan: Option<real>)

  /** The filters only narrow: leaked per the ledger, right tag, known to be old enough. */
  predicate Selected(i: Instance, leaked: set<Id>, f: Filters) {
    && i.id in leaked
    && (f.tag.Some? ==> i.tag == f.tag)
    && (f.olderThan.Some? ==> i.age.Some? && i.age.value >= f.olderThan.value)
  }

  function Targets(live: seq<Instance>, leaked: set<Id>, f: Filters): seq<Instance> {
    if live == [] then []
    else Targets(live[..|live| - 1], leaked, f)
         + if Selected(live[|live| - 1], leaked, f) then [live[|live| - 1]] else []
  }

  function IdsOf(instances: seq<Instance>): set<Id> {
    set i | i in instances :: i.id
  }

  lemma {:induction false} TargetsAreSelected(live: seq<Instance>, leaked: set<Id>, f: Filters, i: Instance)
    ensures i in Targets(live, leaked, f) <==> i in live && Selected(i, leaked, f)
  {
    if live != [] {
      TargetsAreSelected(live[..|live| - 1], leaked, f, i);
      assert live == live[..|live| - 1] + [live[|live| - 1]];
    }
  }

  function Killed(targets: seq<Instance>, market: Market, retries: nat): set<Id> {
    set i | i in targets && DestroyOutcome(market, i.id, 0, retries) != StillThere :: i.id
  }

  function Failed(targets: seq<Instance>, market: Market, retries: nat): set<Id> {
    set i | i in targets && DestroyOutcome(market, i.id, 0, retries) == StillThere :: i.id
  }

  /** A row younger than this is never closed as already gone. */
  const GRACE := 120.0

  /** Leaked, absent from the listing, not just killed, and past the grace period. The rent
      rows and the leaked set come from two successive reads of the file. */
  ghost function Vanished(rents: seq<Row>, leaked: set<Id>, listed: set<Id>, killed: set<Id>, now: real): set<Id> {
    set id | id in leaked - listed - killed && now - StampOf(rents, id) > GRACE
  }

  function StampOf(rents: seq<Row>, id: Id): real {
    match RentRow(rents, id)
    case Some(row) => row.ts
    case None => 0.0
  }

  /** Billed seconds to one decimal, where the row's stamp is known. */
  function BilledTo(row: Option<Row>, now: real): Option<real> {
    if row.Some? && row.value.ts != 0.0 then Some(RoundTo(now - row.value.ts, 10)) else None
  }

  function AtRate(billed: real, dph: real): real { billed / 3600.0 * dph }

  /** A killed host is booked for rent-to-now at its rate; a vanished one at nothing. */
  function ClosingCost(row: Option<Row>, killed: bool, now: real): real {
    var billed := BilledTo(row, now);
    if killed && billed.Some? && billed.value != 0.0 && row.value.event.Rented? && row.value.event.dph != 0.0
    then RoundTo(AtRate(billed.value, row.value.event.dph), 10000)
    else 0.0
  }

  function ClosingEvent(rents: seq<Row>, id: Id, killed: bool, now: real): Event {
    Destroyed(id, true, Gone, ClosingCost(RentRow(rents, id), killed, now), true)
  }

  function ClosingRows(rents: seq<Row>, ids: seq<Id>, killed: set<Id>, now: real): seq<Row> {
    if ids == [] then []
    else
      var id := ids[|ids| - 1];
      ClosingRows(rents, ids[..|ids| - 1], killed, now)
      + [Row(RoundTo(now, 1000), ClosingEvent(rents, id, id in killed, now))]
  }

  predicate IsLeast(m: Id, s: set<Id>) {
    m in s && forall x :: x in s ==> m <= x
  }

  function Least(s: set<Id>): (m: Id)
    requires s != {}
    ensures IsLeast(m, s)
  {
    LeastExists(s);
    var m :| IsLeast(m, s);
    m
  }

  lemma LeastExists(s: set<Id>)
    requires s != {}
    ensures exists m :: IsLeast(m, s)
  {
    var m := FindLeast(s);
  }

  lemma {:induction false} FindLeast(s: set<Id>) returns (m: Id)
    requires s != {}
    ensures IsLeast(m, s)
    decreases |s|
  {
    m :| m in s;
    if s - {m} != {} {
      var rest := FindLeast(s - {m});
      forall x | x in s ensures (if rest < m then rest else m) <= x {
        assert x == m || x in s - {m};
      }
      m := if rest < m then rest else m;
    } else {
      assert forall x :: x in s ==> x == m;
    }
  }

  function Sorted(s: set<Id>): (ids: seq<Id>)
    ensures |ids| == |s| && forall x :: x in ids <==> x in s
    ensures forall i, j :: 0 <= i < j < |ids| ==> ids[i] < ids[j]
    decreases |s|
  {
    if s == {} then []
    else
      var m := Least(s);
      [m] + Sorted(s - {m})
  }

  datatype Reaped = Reaped(
    targets: seq<Instance>, killed: set<Id>, failed: set<Id>, vanished: set<Id>, closed: seq<Id>, rows: seq<Row>)

  /** Rows other processes append while this reap runs: before the rent rows are read, and
      between that read and the second read of the leaked set. */
  datatype Meanwhile = Meanwhile(early: seq<Row>, late: seq<Row>)

  ghost function ReapSpec(rows: seq<Row>, live: seq<Instance>, f: Filters, market: Market, retries: nat,
                          others: Meanwhile, now: real): Reaped
  {
    var targets := Targets(live, Leaked(rows), f);
    var killed := Killed(targets, market, retries);
    var rents := rows + others.early;
    var open := rents + others.late;
    var vanished := Vanished(rents, Leaked(open), IdsOf(live), killed, now);
    var closed := Sorted(killed) + Sorted(vanished);
    Reaped(targets, killed, Failed(targets, market, retries), vanished, closed,
           open + ClosingRows(rents, closed, killed, now))
  }

  // ---- the reap itself

  method SelectTargets(live: seq<Instance>, leaked: set<Id>, f: Filters) returns (targets: seq<Instance>)
    ensures targets == Targets(live, leaked, f)
  {
    targets := [];
    for i := 0 to |live|
      invariant targets == Targets(live[..i], leaked, f)
    {
      assert live[..i + 1][..i] == live[..i];
      if Selected(live[i], leaked, f) {
        targets := targets + [live[i]];
      }
    }
    assert live[..|live|] == live;
  }

  method DestroyTargets(targets: seq<Instance>, market: Market, retries: nat)
    returns (killed: set<Id>, failed: set<Id>)
    ensures killed == Killed(targets, market, retries) && failed == Failed(targets, market, retries)
  {
    killed, failed := {}, {};
    for i := 0 to |targets|
      invariant killed == Killed(targets[..i], market, retries)
      invariant failed == Failed(targets[..i], market, retries)
    {
      var status, _ := DestroyWithRetry(market, targets[i].id, retries);
      assert targets[..i + 1] == targets[..i] + [targets[i]];
      if status == StillThere {
        failed := failed + {targets[i].id};
      } else {
        killed := killed + {targets[i].id};
      }
    }
    assert targets[..|targets|] == targets;
  }

  method FindVanished(rents: map<Id, Row>, ghost rows: seq<Row>, candidates: set<Id>, now: real)
    returns (vanished: set<Id>)
    requires rents.Keys == RentedIds(rows)
    requires forall id :: id in rents ==> RentRow(rows, id) == Some(rents[id])
    ensures vanished == set id | id in candidates && now - StampOf(rows, id) > GRACE
  {
    vanished := {};
    var left := candidates;
    while left != {}
      invariant left <= candidates
      invariant vanished == set id | id in candidates - left && now - StampOf(rows, id) > GRACE
      decreases |left|
    {
      var id :| id in left;
      left := left - {id};
      var stamp := if id in rents then rents[id].ts else 0.0;
      if now - stamp > GRACE {
        vanished := vanished + {id};
      }
    }
    assert candidates - left == candidates;
  }

  /** The durable half: one confirmed `destroyed` row per id. */
  method CloseLedgerRows(ledger: RentalLedger, rents: map<Id, Row>, ghost rows: seq<Row>,
                         ids: seq<Id>, killed: set<Id>, now: real)
    requires rents.Keys == RentedIds(rows)
    requires forall id :: id in rents ==> RentRow(rows, id) == Some(rents[id])
    modifies ledger
    ensures Rows(ledger.lines) == Rows(old(ledger.lines)) + ClosingRows(rows, ids, killed, now)
  {
    for i := 0 to |ids|
      invariant Rows(ledger.lines) == Rows(old(ledger.lines)) + ClosingRows(rows, ids[..i], killed, now)
    {
      assert ids[..i + 1][..i] == ids[..i];
      var id := ids[i];
      var rent := if id in rents then Some(rents[id]) else None;
      ledger.Record(Destroyed(id, true, Gone, ClosingCost(rent, id in killed, now), true), now);
    }
    assert ids[..|ids|] == ids;
  }

  method Reap(ledger: RentalLedger, live: seq<Instance>, f: Filters, market: Market, retries: nat,
              others: Meanwhile, now: real) returns (report: Reaped)
    modifies ledger
    ensures report == ReapSpec(Rows(old(ledger.lines)), live, f, market, retries, others, now)
    ensures Rows(ledger.lines) == report.rows
  {
    ghost var before := Rows(ledger.lines);
    var leaked := LeakedIds(ledger.lines);
    var targets := SelectTargets(live, leaked, f);
    var killed, failed := DestroyTargets(targets, market, retries);
    OthersAppend(ledger, others.early);
    var rents := RentRows(ledger.lines);
    ghost var rentRows := Rows(ledger.lines);
    OthersAppend(ledger, others.late);
    var stillOpen := LeakedIds(ledger.lines);
    var vanished := FindVanished(rents, rentRows, stillOpen - IdsOf(live) - killed, now);
    var closed := Sorted(killed) + Sorted(vanished);
    ghost var openRows := Rows(ledger.lines);
    assert rentRows == before + others.early && openRows == rentRows + others.late;
    CloseLedgerRows(ledger, rents, rentRows, closed, killed, now);
    report := Reaped(targets, killed, failed, vanished, closed, Rows(ledger.lines));
  }

  /** Rows written to the shared file by somebody else. */
  method OthersAppend(ledger: RentalLedger, rows: seq<Row>)
    modifies ledger
    ensures Rows(ledger.lines) == Rows(old(ledger.lines)) + rows
  {
    for i := 0 to |rows|
      invariant Rows(ledger.lines) == Rows(old(ledger.lines)) + rows[..i]
    {
      var before := ledger.lines;
      ledger.lines := ledger.lines + [Entry(rows[i])];
      assert ledger.lines[..|ledger.lines| - 1] == before;
      assert rows[..i + 1] == rows[..i] + [rows[i]];
    }
    assert rows[..|rows|] == rows;
  }
}

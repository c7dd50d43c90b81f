/** The typed cut-flow: per leg and stage, survived, dropped or unknown, with reasons. */
module CutFlow {
  import opened Prelude

  datatype Cell = Unknown | Passed | Dropped

  /** One leg's cells, and the reasons recorded at its own drops. */
  datatype LegRow = LegRow(cells: seq<Cell>, why: map<nat, string>)

  type Flow = map<string, LegRow>

  function EnterRow(stages: nat): LegRow {
    LegRow(seq(stages, _ => Unknown), map[])
  }

  function OrUnspecified(reason: string): string {
    if reason == "" then "unspecified" else reason
  }

  /** The first stage after i that carries its own reason, or the end. */
  function NextReason(why: map<nat, string>, i: nat, stages: nat): (j: nat)
    requires i < stages
    ensures i < j <= stages && (j < stages ==> j in why)
    ensures forall k :: i < k < j ==> k !in why
    decreases stages - i
  {
    if i + 1 == stages || i + 1 in why then i + 1
    else NextReason(why, i + 1, stages)
  }

  /** A drop forces every later stage; a pass un-forces up to the next recorded drop. */
  function MarkRow(r: LegRow, i: nat, ok: bool, reason: string): LegRow
    requires i < |r.cells|
  {
    var n := |r.cells|;
    if !ok then
      LegRow(seq(n, (j: nat) requires j < n => if j < i then r.cells[j] else Dropped),
             r.why[i := OrUnspecified(reason)])
    else
      var why := r.why - {i};
      var stop := NextReason(why, i, n);
      LegRow(seq(n, (j: nat) requires j < n =>
               if j == i then Passed
               else if i < j < stop && r.cells[j] == Dropped then Unknown
               else r.cells[j]),
             why)
  }

  function FlowEnter(f: Flow, stages: nat, leg: string): Flow {
    f[leg := EnterRow(stages)]
  }

  function RowOf(f: Flow, stages: nat, leg: string): LegRow {
    if leg in f then f[leg] else EnterRow(stages)
  }

  function FlowMark(f: Flow, stages: nat, leg: string, i: nat, ok: bool, reason: string): Flow
    requires i < |RowOf(f, stages, leg).cells|
  {
    f[leg := MarkRow(RowOf(f, stages, leg), i, ok, reason)]
  }

  /** What one mark makes of a row, cell by cell. A drop settles its own stage and all later ones; a
      pass settles its own, and of the others it only takes back drops: those after it with no
      reason of their own or between. */
  ghost predicate MarkTells(r: LegRow, i: nat, ok: bool, reason: string, q: LegRow)
    requires i < |r.cells|
  {
    && |q.cells| == |r.cells|
    && (forall j :: j in q.why && j != i <==> j in r.why && j != i)
    && (forall j :: j in r.why && j != i ==> q.why[j] == r.why[j])
    && (i in q.why <==> !ok) && (!ok ==> q.why[i] == OrUnspecified(reason))
    && (forall j :: 0 <= j < |r.cells| ==> CellTells(r, i, ok, j, q.cells[j]))
  }

  ghost predicate CellTells(r: LegRow, i: nat, ok: bool, j: nat, cell: Cell)
    requires j < |r.cells|
  {
    if j < i then cell == r.cells[j]
    else if !ok then cell == Dropped
    else if j == i then cell == Passed
    else if r.cells[j] != Dropped then cell == r.cells[j]
    else cell == if exists k :: k in r.why && i < k <= j then Dropped else Unknown
  }

  lemma MarkRowTells(r: LegRow, i: nat, ok: bool, reason: string)
    requires i < |r.cells|
    ensures MarkTells(r, i, ok, reason, MarkRow(r, i, ok, reason))
  {
    var q := MarkRow(r, i, ok, reason);
    forall j | 0 <= j < |r.cells| ensures CellTells(r, i, ok, j, q.cells[j]) {
      if ok && i < j {
        var rest := r.why - {i};
        var stop := NextReason(rest, i, |r.cells|);
        assert stop <= j ==> stop in r.why;
        forall k | k in r.why && i < k ensures stop <= k {
          assert k in rest;
        }
      }
    }
  }

  /** A mark leaves every other leg alone and enters an unknown one. */
  lemma FlowMarkTells(f: Flow, stages: nat, leg: string, i: nat, ok: bool, reason: string)
    requires i < |RowOf(f, stages, leg).cells|
    ensures var g := FlowMark(f, stages, leg, i, ok, reason);
            && g.Keys == f.Keys + {leg} && (forall other :: other in f && other != leg ==> g[other] == f[other])
            && MarkTells(if leg in f then f[leg] else EnterRow(stages), i, ok, reason, g[leg])
  {
    MarkRowTells(RowOf(f, stages, leg), i, ok, reason);
  }

  /** The promise of the cut-flow for one row: reasons sit on drops, and every drop is
      explained at its own stage or an earlier one. */
  ghost predicate Explained(r: LegRow, stages: nat) {
    && |r.cells| == stages
    && (forall j :: j in r.why ==> j < stages && r.cells[j] == Dropped && r.why[j] != "")
    && (forall j :: 0 <= j < stages && r.cells[j] == Dropped ==> HasReasonUpTo(r.why, j))
  }

  ghost predicate HasReasonUpTo(why: map<nat, string>, j: nat) {
    exists h :: h in why && h <= j
  }

  ghost predicate FlowOk(f: Flow, stages: nat) {
    forall leg :: leg in f ==> Explained(f[leg], stages)
  }

  lemma DropKeepsExplained(r: LegRow, stages: nat, i: nat, reason: string)
    requires Explained(r, stages) && i < stages
    ensures Explained(MarkRow(r, i, false, reason), stages)
  {
    var q := MarkRow(r, i, false, reason);
    forall j | 0 <= j < stages && q.cells[j] == Dropped ensures HasReasonUpTo(q.why, j) {
      if i <= j {
        assert i in q.why;
      } else {
        assert r.cells[j] == Dropped;
        var h :| h in r.why && h <= j;
        assert h in q.why;
      }
    }
  }

  lemma CellAfterPass(r: LegRow, i: nat, j: nat)
    requires i < |r.cells| && j < |r.cells|
    ensures MarkRow(r, i, true, "").cells[j] == Dropped ==>
              r.cells[j] == Dropped && (j < i || NextReason(r.why - {i}, i, |r.cells|) <= j)
  {
  }

  lemma PassKeepsReason(r: LegRow, stages: nat, i: nat, j: nat)
    requires Explained(r, stages) && i < stages && j < stages
    requires MarkRow(r, i, true, "").cells[j] == Dropped
    ensures HasReasonUpTo(r.why - {i}, j)
  {
    CellAfterPass(r, i, j);
    ReasonWithout(r.why, i, stages, j);
  }

  lemma PassKeepsExplained(r: LegRow, stages: nat, i: nat, reason: string)
    requires Explained(r, stages) && i < stages
    ensures Explained(MarkRow(r, i, true, reason), stages)
  {
    var q := MarkRow(r, i, true, reason);
    assert q == MarkRow(r, i, true, "") && q.why == r.why - {i};
    forall j | 0 <= j < stages && q.cells[j] == Dropped ensures HasReasonUpTo(q.why, j) {
      PassKeepsReason(r, stages, i, j);
    }
    forall j | j in q.why ensures j < stages && q.cells[j] == Dropped && q.why[j] != "" {
      ReasonKeepsDrop(r, i, j);
    }
  }

  /** A recorded drop at another stage survives a pass. */
  lemma ReasonKeepsDrop(r: LegRow, i: nat, j: nat)
    requires i < |r.cells| && j < |r.cells| && j in r.why - {i}
    ensures MarkRow(r, i, true, "").cells[j] == r.cells[j]
  {
  }

  lemma MarkKeepsExplained(r: LegRow, stages: nat, i: nat, ok: bool, reason: string)
    requires Explained(r, stages) && i < stages
    ensures Explained(MarkRow(r, i, ok, reason), stages)
  {
    if ok {
      PassKeepsExplained(r, stages, i, reason);
    } else {
      DropKeepsExplained(r, stages, i, reason);
    }
  }

  datatype Op = Enter(leg: string) | Mark(leg: string, stage: nat, ok: bool, reason: string)

  ghost predicate ValidOps(ops: seq<Op>, stages: nat) {
    forall op :: op in ops && op.Mark? ==> op.stage < stages
  }

  /** A cut-flow's history, starting empty. */
  function Replay(ops: seq<Op>, stages: nat): (f: Flow)
    requires ValidOps(ops, stages)
    ensures forall leg :: leg in f ==> |f[leg].cells| == stages
  {
    if ops == [] then map[]
    else
      var last := ops[|ops| - 1];
      assert ValidOps(ops[..|ops| - 1], stages);
      var f := Replay(ops[..|ops| - 1], stages);
      match last
      case Enter(leg) => FlowEnter(f, stages, leg)
      case Mark(leg, i, ok, reason) =>
        assert last in ops;
        FlowMark(f, stages, leg, i, ok, reason)
  }

  /** Silent attrition is impossible: after any sequence of calls, in any order, every
      drop of every leg is explained and every reason sits on a drop. */
  lemma {:induction false} EveryDropIsExplained(ops: seq<Op>, stages: nat)
    requires ValidOps(ops, stages)
    ensures FlowOk(Replay(ops, stages), stages)
  {
    if ops != [] {
      var last := ops[|ops| - 1];
      assert last in ops && ValidOps(ops[..|ops| - 1], stages);
      EveryDropIsExplained(ops[..|ops| - 1], stages);
      if last.Mark? {
        var f := Replay(ops[..|ops| - 1], stages);
        MarkKeepsExplained(RowOf(f, stages, last.leg), stages, last.stage, last.ok, last.reason);
      }
    }
  }

  /** A drop empties the rest of the row. */
  lemma DropForcesTail(r: LegRow, i: nat, reason: string, j: nat)
    requires i < |r.cells| && i <= j < |r.cells|
    ensures MarkRow(r, i, false, reason).cells[j] == Dropped
    ensures i in MarkRow(r, i, false, reason).why && MarkRow(r, i, false, reason).why[i] != ""
  {
  }

  // ---- un-forcing

  /** Forced drops that a pass at stage i releases. */
  ghost function Released(r: LegRow, i: nat): set<nat>
    requires i < |r.cells|
  {
    set j | 0 <= j < |r.cells| && j != i && r.cells[j] == Dropped && MarkRow(r, i, true, "").cells[j] != Dropped
  }

  /** Drops that nothing explains any more once stage i's own reason is gone. */
  ghost function Unexplained(r: LegRow, i: nat): set<nat> {
    set j | 0 <= j < |r.cells| && j != i && r.cells[j] == Dropped && !HasReasonUpTo(r.why - {i}, j)
  }

  /** The stretch a pass at stage i walks over holds a drop. */
  ghost predicate DropsBeforeNextReason(r: LegRow, i: nat)
    requires i < |r.cells|
  {
    exists j :: i < j < NextReason(r.why - {i}, i, |r.cells|) && r.cells[j] == Dropped
  }

  ghost predicate EarlierReason(r: LegRow, i: nat) {
    exists h :: h in r.why && h < i
  }

  lemma ReleasedIs(r: LegRow, i: nat, j: nat)
    requires i < |r.cells|
    ensures j in Released(r, i) <==>
            i < j < NextReason(r.why - {i}, i, |r.cells|) && r.cells[j] == Dropped
  {
  }

  lemma UnexplainedIs(r: LegRow, i: nat, j: nat)
    requires Explained(r, |r.cells|) && i < |r.cells|
    ensures j in Unexplained(r, i) <==>
            i < j < NextReason(r.why - {i}, i, |r.cells|) && r.cells[j] == Dropped && !EarlierReason(r, i)
  {
    if j < |r.cells| && j != i && r.cells[j] == Dropped {
      ReasonWithout(r.why, i, |r.cells|, j);
      assert HasReasonUpTo(r.why, j);
    }
  }

  /** Without stage i's own reason, j is still explained by an earlier stage's reason, or by
      the next recorded one. */
  lemma ReasonWithout(why: map<nat, string>, i: nat, stages: nat, j: nat)
    requires i < stages && j < stages && j != i && HasReasonUpTo(why, j)
    requires forall h :: h in why ==> h < stages
    ensures HasReasonUpTo(why - {i}, j) <==>
            j < i || NextReason(why - {i}, i, stages) <= j || exists h :: h in why && h < i
  {
    var rest := why - {i};
    var stop := NextReason(rest, i, stages);
    if j < i {
      var h :| h in why && h <= j;
      assert h in rest;
    } else if stop <= j {
      assert stop in rest;
    } else if e :| e in why && e < i {
      assert e in rest;
    }
  }

  /** Passing a stage releases exactly the drops that lost their explanation, if and only
      if no earlier stage has a recorded drop, or there was nothing to release. With an
      earlier drop still on record, forced cells are released although it explains them. */
  lemma UnforcingIsExact(r: LegRow, i: nat)
    requires Explained(r, |r.cells|) && i < |r.cells|
    ensures Released(r, i) == Unexplained(r, i) <==> !EarlierReason(r, i) || !DropsBeforeNextReason(r, i)
  {
    forall j: nat
      ensures j in Released(r, i) <==> i < j < NextReason(r.why - {i}, i, |r.cells|) && r.cells[j] == Dropped
      ensures j in Unexplained(r, i) <==> j in Released(r, i) && !EarlierReason(r, i)
    {
      ReleasedIs(r, i, j);
      UnexplainedIs(r, i, j);
    }
    if EarlierReason(r, i) && DropsBeforeNextReason(r, i) {
      var j :| i < j < NextReason(r.why - {i}, i, |r.cells|) && r.cells[j] == Dropped;
      assert j in Released(r, i) && j !in Unexplained(r, i);
    }
  }

  /** The case outside the promise: dropped at planning, then passed at completion; the
      later stages become unknown although the planning drop is still recorded. */
  lemma UnforcingPastAnEarlierDrop()
    ensures var r := MarkRow(MarkRow(EnterRow(3), 0, false, "envelope"), 1, true, "");
            0 in r.why && r.cells[0] == Dropped && r.cells[1] == Passed && r.cells[2] == Unknown
  {
  }

  lemma UpdateTwice(f: Flow, leg: string, a: LegRow, b: LegRow, g: Flow, h: Flow)
    requires g == f[leg := a] && h == g[leg := b]
    ensures h == f[leg := b]
  {
  }

  // ---- the object

  /** Forces everything from stage i on. */
  method ForceTail(before: seq<Cell>, i: nat) returns (cells: seq<Cell>)
    requires i < |before|
    ensures |cells| == |before|
    ensures forall k :: 0 <= k < |before| ==> cells[k] == if k < i then before[k] else Dropped
  {
    cells := before[i := Dropped];
    for j := i + 1 to |before|
      invariant |cells| == |before|
      invariant forall k :: 0 <= k < |before| ==> cells[k] == if i <= k < j then Dropped else before[k]
    {
      cells := cells[j := Dropped];
    }
  }

  /** Passes stage i and walks forward, releasing forced drops until a recorded one. */
  method ReleaseTail(before: seq<Cell>, why: map<nat, string>, i: nat) returns (cells: seq<Cell>)
    requires i < |before| && i !in why
    ensures cells == MarkRow(LegRow(before, why), i, true, "").cells
  {
    assert why - {i} == why;
    cells := before[i := Passed];
    var j := i + 1;
    while j < |before| && j !in why
      invariant i < j <= |before| && |cells| == |before|
      invariant NextReason(why, i, |before|) == NextReason(why, j - 1, |before|)
      invariant forall k :: 0 <= k < |before| ==>
                  cells[k] == if k == i then Passed
                              else if i < k < j && before[k] == Dropped then Unknown
                              else before[k]
    {
      if cells[j] == Dropped {
        cells := cells[j := Unknown];
      }
      j := j + 1;
    }
  }

  class Table {
    const stages: nat
    var rows: map<string, seq<Cell>>
    var reasons: map<(string, nat), string>

    ghost predicate Valid()
      reads this
    {
      && (forall leg :: leg in rows ==> |rows[leg]| == stages)
      && (forall key :: key in reasons ==> key.0 in rows && key.1 < stages)
    }

    ghost function View(leg: string): LegRow
      reads this
      requires leg in rows
    {
      LegRow(rows[leg], map i: nat | i < stages && (leg, i) in reasons :: reasons[(leg, i)])
    }

    ghost function Contents(): Flow
      reads this
    {
      map leg | leg in rows :: View(leg)
    }

    constructor (stages: nat)
      ensures Valid() && this.stages == stages && Contents() == map[]
    {
      this.stages := stages;
      rows, reasons := map[], map[];
    }

    /** Writing one leg's cells and reasons changes that leg's row and no other. */
    twostate lemma OthersKept(leg: string)
      requires leg in rows && rows == old(rows)[leg := rows[leg]]
      requires forall key: (string, nat) :: key.0 != leg ==>
                 (key in reasons <==> key in old(reasons)) && (key in reasons ==> reasons[key] == old(reasons)[key])
      ensures Contents() == old(Contents())[leg := View(leg)]
    {
      forall other | other in rows && other != leg ensures old(other in rows) && View(other) == old(View(other)) {
        assert View(other).why == old(View(other).why);
      }
    }

    /** A re-entered leg starts clean. */
    method Enter(leg: string)
      requires Valid()
      modifies this
      ensures Valid() && Contents() == FlowEnter(old(Contents()), stages, leg)
      ensures rows.Keys == old(rows).Keys + {leg} && View(leg) == EnterRow(stages)
    {
      rows := rows[leg := seq(stages, _ => Unknown)];
      reasons := map key | key in reasons && key.0 != leg :: reasons[key];
      assert View(leg) == EnterRow(stages);
      OthersKept(leg);
    }

    lemma RowLength(leg: string)
      requires Valid()
      ensures |RowOf(Contents(), stages, leg).cells| == stages
    {
    }

    method Mark(leg: string, i: nat, ok: bool, reason: string)
      requires Valid() && i < stages
      modifies this
      ensures Valid()
      ensures |RowOf(old(Contents()), stages, leg).cells| == stages
      ensures Contents() == FlowMark(old(Contents()), stages, leg, i, ok, reason)
    {
      RowLength(leg);
      ghost var before := Contents();
      EnsureEntered(leg);
      ghost var start, entered := View(leg), Contents();
      if ok {
        Pass(leg, i, reason);
      } else {
        Drop(leg, i, reason);
      }
      UpdateTwice(before, leg, start, MarkRow(start, i, ok, reason), entered, Contents());
    }

    /** An unknown leg is entered rather than refused. */
    method EnsureEntered(leg: string)
      requires Valid()
      modifies this
      ensures Valid() && leg in rows
      ensures View(leg) == RowOf(old(Contents()), stages, leg)
      ensures Contents() == old(Contents())[leg := View(leg)]
    {
      if leg !in rows {
        Enter(leg);
      }
    }

    method Drop(leg: string, i: nat, reason: string)
      requires Valid() && i < stages && leg in rows
      modifies this
      ensures Valid()
      ensures Contents() == old(Contents())[leg := MarkRow(old(View(leg)), i, false, reason)]
    {
      var cells := ForceTail(rows[leg], i);
      rows, reasons := rows[leg := cells], reasons[(leg, i) := OrUnspecified(reason)];
      assert View(leg).cells == MarkRow(old(View(leg)), i, false, reason).cells;
      assert View(leg).why == MarkRow(old(View(leg)), i, false, reason).why;
      OthersKept(leg);
    }

    method Pass(leg: string, i: nat, reason: string)
      requires Valid() && i < stages && leg in rows
      modifies this
      ensures Valid()
      ensures Contents() == old(Contents())[leg := MarkRow(old(View(leg)), i, true, reason)]
    {
      reasons := reasons - {(leg, i)};
      var why := map k: nat | k < stages && (leg, k) in reasons :: reasons[(leg, k)];
      assert why == old(View(leg).why) - {i} && why - {i} == why;
      var cells := ReleaseTail(rows[leg], why, i);
      rows := rows[leg := cells];
      assert View(leg).why == why;
      OthersKept(leg);
    }
  }
}

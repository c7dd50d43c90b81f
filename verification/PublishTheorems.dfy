/** What every prefix of a publish leaves in the destination, and when the marker is safe. */
module PublishTheorems {
  import opened Prelude
  import opened Publish
  import opened Strings

  // ---- the steps describe the tree

  /** The staged tree has this node at that path. */
  ghost predicate IsAt(t: Tree, rest: Path, node: Node)
    decreases |rest|
  {
    if rest == [] then node == NodeOf(t)
    else t.Dir? && exists i :: 0 <= i < |t.kids| && t.kids[i].name == rest[0] && IsAt(t.kids[i].tree, rest[1..], node)
  }

  ghost predicate Under(p: Path, q: Path) { |p| <= |q| && q[..|p|] == p }

  lemma UnderKid(p: Path, name: string, q: Path)
    ensures Under(p + [name], q) <==> Under(p, q) && |q| > |p| && q[|p|] == name
    ensures Under(p + [name], q) ==> q[|p|..][1..] == q[|p| + 1..] && q[|p|..][0] == name
  {
    if |q| > |p| {
      assert q[..|p| + 1] == q[..|p|] + [q[|p|]];
    }
  }

  /** An entry of t from i on, in the given pass, holds this node there. */
  ghost predicate SomeAt(t: Tree, i: nat, key: string, last: bool, rest: Path, node: Node)
    requires t.Dir?
  {
    rest != [] &&
    exists k :: i <= k < |t.kids| && (t.kids[k].name == key) == last && t.kids[k].name == rest[0]
                && IsAt(t.kids[k].tree, rest[1..], node)
  }

  lemma {:induction false} OpsAreTheTree(t: Tree, p: Path, base: string, op: Op)
    ensures op in TreeOps(t, p, base) <==> Under(p, op.path) && IsAt(t, op.path[|p|..], op.node)
    decreases t, 1, 0
  {
    if t.File? {
      assert Under(p, op.path) && op.path[|p|..] == [] ==> op.path == p;
      assert p[|p|..] == [];
    } else {
      SomeOpsAreTheTree(t, 0, p, base, base, false, op);
      SomeOpsAreTheTree(t, 0, p, base, base, true, op);
      assert p[|p|..] == [];
      assert Under(p, op.path) && op.path[|p|..] == [] ==> op.path == p;
    }
  }

  lemma {:induction false} SomeOpsAreTheTree(t: Tree, i: nat, p: Path, key: string, base: string, last: bool, op: Op)
    requires t.Dir? && i <= |t.kids|
    ensures op in SomeOps(t, i, p, key, base, last)
       <==> Under(p, op.path) && SomeAt(t, i, key, last, op.path[|p|..], op.node)
    decreases t, 0, |t.kids| - i
  {
    if i < |t.kids| {
      var kid := t.kids[i];
      SomeOpsAreTheTree(t, i + 1, p, key, base, last, op);
      OpsAreTheTree(kid.tree, p + [kid.name], base, op);
      UnderKid(p, kid.name, op.path);
    }
  }

  /** Publishing does one step for every staged node, and no other. */
  lemma PublishCoversStaging(staging: Tree, marker: Path, op: Op)
    requires staging.Dir?
    ensures op in PublishOps(staging, marker) <==> op.path != [] && IsAt(staging, op.path, op.node)
  {
    SomeOpsAreTheTree(staging, 0, [], FirstOf(marker), BaseOf(marker), false, op);
    SomeOpsAreTheTree(staging, 0, [], FirstOf(marker), BaseOf(marker), true, op);
    assert op.path[0..] == op.path;
  }

  // ---- no path is written twice, and parents come first

  ghost predicate Distinct(ops: seq<Op>) {
    forall i, j :: 0 <= i < j < |ops| ==> ops[i].path != ops[j].path
  }

  lemma DistinctAppend(a: seq<Op>, b: seq<Op>)
    requires Distinct(a) && Distinct(b) && forall x: Op, y: Op :: x in a && y in b ==> x.path != y.path
    ensures Distinct(a + b)
  {
    forall i, j | 0 <= i < j < |a + b| ensures (a + b)[i].path != (a + b)[j].path {
      if i < |a| <= j {
        assert (a + b)[i] in a && (a + b)[j] in b;
      }
    }
  }

  lemma {:induction false} TreeOpsDistinct(t: Tree, p: Path, base: string)
    requires WellNamed(t)
    ensures Distinct(TreeOps(t, p, base))
    decreases t, 1, 0
  {
    if t.Dir? {
      var a, b := SomeOps(t, 0, p, base, base, false), SomeOps(t, 0, p, base, base, true);
      PassesDistinct(t, p, base, base);
      forall x: Op, y: Op | x in [Put(p, DirNode)] && y in a + b ensures x.path != y.path {
        SomeOpsAreTheTree(t, 0, p, base, base, false, y);
        SomeOpsAreTheTree(t, 0, p, base, base, true, y);
        assert p[|p|..] == [];
      }
      DistinctAppend([Put(p, DirNode)], a + b);
    }
  }

  lemma {:induction false} PassesDistinct(t: Tree, p: Path, key: string, base: string)
    requires t.Dir? && WellNamed(t)
    ensures Distinct(SomeOps(t, 0, p, key, base, false) + SomeOps(t, 0, p, key, base, true))
    decreases t, 0, |t.kids| + 1
  {
    var a, b := SomeOps(t, 0, p, key, base, false), SomeOps(t, 0, p, key, base, true);
    SomeOpsDistinct(t, 0, p, key, base, false);
    SomeOpsDistinct(t, 0, p, key, base, true);
    forall x: Op, y: Op | x in a && y in b ensures x.path != y.path {
      SomeOpsAreTheTree(t, 0, p, key, base, false, x);
      SomeOpsAreTheTree(t, 0, p, key, base, true, y);
    }
    DistinctAppend(a, b);
  }

  lemma {:induction false} SomeOpsDistinct(t: Tree, i: nat, p: Path, key: string, base: string, last: bool)
    requires t.Dir? && i <= |t.kids| && WellNamed(t)
    ensures Distinct(SomeOps(t, i, p, key, base, last))
    decreases t, 0, |t.kids| - i
  {
    if i < |t.kids| {
      var kid := t.kids[i];
      var a, b := TreeOps(kid.tree, p + [kid.name], base), SomeOps(t, i + 1, p, key, base, last);
      SomeOpsDistinct(t, i + 1, p, key, base, last);
      TreeOpsDistinct(kid.tree, p + [kid.name], base);
      forall x: Op, y: Op | x in a && y in b ensures x.path != y.path {
        OpsAreTheTree(kid.tree, p + [kid.name], base, x);
        SomeOpsAreTheTree(t, i + 1, p, key, base, last, y);
        UnderKid(p, kid.name, x.path);
      }
      DistinctAppend(a, b);
      assert [] + b == b;
    }
  }

  /** Every step's parent is p, or a directory made by an earlier step. */
  ghost predicate Nested(ops: seq<Op>, p: Path) {
    forall i :: 0 <= i < |ops| ==> ops[i].path != [] && HasParent(ops, i, p)
  }

  ghost predicate HasParent(ops: seq<Op>, i: nat, p: Path)
    requires i < |ops| && ops[i].path != []
  {
    Parent(ops[i].path) == p || Put(Parent(ops[i].path), DirNode) in ops[..i]
  }

  lemma NestedAppend(a: seq<Op>, b: seq<Op>, p: Path)
    requires Nested(a, p) && Nested(b, p)
    ensures Nested(a + b, p)
  {
    var s := a + b;
    forall i | 0 <= i < |s| ensures s[i].path != [] && HasParent(s, i, p) {
      if i < |a| {
        assert HasParent(a, i, p) && s[..i] == a[..i];
      } else {
        assert HasParent(b, i - |a|, p) && s[..i] == a + b[..i - |a|];
      }
    }
  }

  lemma NestedUnder(p: Path, ops: seq<Op>)
    requires p != [] && Nested(ops, p)
    ensures Nested([Put(p, DirNode)] + ops, Parent(p))
  {
    var s := [Put(p, DirNode)] + ops;
    forall i | 0 <= i < |s| ensures s[i].path != [] && HasParent(s, i, Parent(p)) {
      if i > 0 {
        assert HasParent(ops, i - 1, p) && s[..i] == [Put(p, DirNode)] + ops[..i - 1];
      }
    }
  }

  lemma {:induction false} TreeOpsNested(t: Tree, p: Path, base: string)
    requires p != []
    ensures Nested(TreeOps(t, p, base), Parent(p))
    decreases t, 1, 0
  {
    if t.Dir? {
      var a, b := SomeOps(t, 0, p, base, base, false), SomeOps(t, 0, p, base, base, true);
      SomeOpsNested(t, 0, p, base, base, false);
      SomeOpsNested(t, 0, p, base, base, true);
      NestedAppend(a, b, p);
      NestedUnder(p, a + b);
    }
  }

  lemma {:induction false} SomeOpsNested(t: Tree, i: nat, p: Path, key: string, base: string, last: bool)
    requires t.Dir? && i <= |t.kids|
    ensures Nested(SomeOps(t, i, p, key, base, last), p)
    decreases t, 0, |t.kids| - i
  {
    if i < |t.kids| {
      var kid := t.kids[i];
      SomeOpsNested(t, i + 1, p, key, base, last);
      TreeOpsNested(kid.tree, p + [kid.name], base);
      assert Parent(p + [kid.name]) == p;
      NestedAppend(TreeOps(kid.tree, p + [kid.name], base), SomeOps(t, i + 1, p, key, base, last), p);
      assert [] + SomeOps(t, i + 1, p, key, base, last) == SomeOps(t, i + 1, p, key, base, last);
    }
  }

  lemma PublishOpsShape(staging: Tree, marker: Path)
    requires staging.Dir? && WellNamed(staging)
    ensures Distinct(PublishOps(staging, marker)) && Nested(PublishOps(staging, marker), [])
  {
    var key, base := FirstOf(marker), BaseOf(marker);
    PassesDistinct(staging, [], key, base);
    SomeOpsNested(staging, 0, [], key, base, false);
    SomeOpsNested(staging, 0, [], key, base, true);
    NestedAppend(SomeOps(staging, 0, [], key, base, false), SomeOps(staging, 0, [], key, base, true), []);
  }

  // ---- prefixes

  /** What a list of steps writes. */
  ghost function Written(ops: seq<Op>): Disk {
    if ops == [] then map[]
    else Written(ops[..|ops| - 1])[ops[|ops| - 1].path := ops[|ops| - 1].node]
  }

  lemma {:induction false} WrittenIs(ops: seq<Op>, q: Path)
    requires Distinct(ops)
    ensures q in Written(ops) <==> exists op :: op in ops && op.path == q
    ensures forall op :: op in ops && op.path == q ==> Written(ops)[q] == op.node
  {
    if ops != [] {
      var n := |ops| - 1;
      assert ops == ops[..n] + [ops[n]];
      WrittenIs(ops[..n], q);
    }
  }

  /** Running steps either writes them all, or stops having written some prefix. */
  lemma {:induction false} RunWritesAPrefix(disk: Disk, ops: seq<Op>) returns (j: nat)
    ensures j <= |ops| && ApplyOps(disk, ops).0 == disk + Written(ops[..j])
    ensures ApplyOps(disk, ops).1 ==> j == |ops|
  {
    if ops == [] {
      j := 0;
    } else {
      var n := |ops| - 1;
      assert ops == ops[..n] + [ops[n]];
      ApplyAppend(disk, ops[..n], [ops[n]]);
      j := RunWritesAPrefix(disk, ops[..n]);
      assert ops[..n][..j] == ops[..j];
      var mid := ApplyOps(disk, ops[..n]);
      if mid.1 && Succeeds(mid.0, ops[n]) {
        assert ApplyOps(mid.0, [ops[n]]).0 == mid.0[ops[n].path := ops[n].node];
        assert ops[..n + 1] == ops;
        assert (disk + Written(ops[..n]))[ops[n].path := ops[n].node] == disk + Written(ops);
        j := n + 1;
      }
    }
  }

  lemma PrefixShape(ops: seq<Op>, n: nat)
    requires n <= |ops| && Distinct(ops) && Nested(ops, [])
    ensures Distinct(ops[..n]) && Nested(ops[..n], [])
  {
    forall i | 0 <= i < n ensures ops[..n][i].path != [] && HasParent(ops[..n], i, []) {
      assert HasParent(ops, i, []) && ops[..n][..i] == ops[..i];
    }
  }

  lemma {:induction false} RunSucceeds(disk: Disk, ops: seq<Op>)
    requires Distinct(ops) && Nested(ops, [])
    ensures ApplyOps(disk, ops).1 <==> forall op :: op in ops ==> !Clashes(disk, op)
  {
    if ops != [] {
      var n := |ops| - 1;
      var front, op := ops[..n], ops[n];
      assert ops == front + [op];
      PrefixShape(ops, n);
      RunSucceeds(disk, front);
      ApplyAppend(disk, front, [op]);
      var mid := ApplyOps(disk, front);
      var j := RunWritesAPrefix(disk, front);
      if mid.1 {
        assert front[..n] == front;
        WrittenIs(front, op.path);
        ParentIsThere(disk, ops, n);
        assert Clashes(mid.0, op) <==> Clashes(disk, op);
      }
    }
  }

  lemma ParentIsThere(disk: Disk, ops: seq<Op>, n: nat)
    requires n < |ops| && Distinct(ops) && Nested(ops, [])
    ensures ops[n].path != [] && IsDir(disk + Written(ops[..n]), Parent(ops[n].path))
  {
    assert HasParent(ops, n, []);
    var p := Parent(ops[n].path);
    if p != [] {
      PrefixShape(ops, n);
      WrittenIs(ops[..n], p);
    }
  }

  /** A staged file meets a directory in the destination, or the other way round. */
  ghost predicate KindClash(disk: Disk, staging: Tree) {
    exists q, node :: q != [] && IsAt(staging, q, node) && MeetsOtherKind(disk, q, node)
  }

  /** A file would meet a directory there, or a directory a file. */
  predicate MeetsOtherKind(disk: Disk, q: Path, node: Node) {
    q in disk && (disk[q].FileNode? <==> node.DirNode?)
  }

  /** The destination as it was, overlaid by everything staged. */
  ghost predicate Overlaid(disk: Disk, staging: Tree, after: Disk) {
    && (forall q, node :: q != [] && IsAt(staging, q, node) ==> q in after && after[q] == node)
    && (forall q :: q == [] || (forall node :: !IsAt(staging, q, node)) ==>
          (q in after <==> q in disk) && (q in disk ==> after[q] == disk[q]))
  }

  /** A publish completes exactly when no staged path meets a node of the other kind, and then
      the destination is what it was, overlaid by everything staged. */
  lemma CompletedPublishOverlays(disk: Disk, staging: Tree, marker: Path)
    requires staging.Dir? && WellNamed(staging)
    ensures var (after, ok) := ApplyOps(disk, PublishOps(staging, marker));
            && (ok <==> !KindClash(disk, staging))
            && (ok ==> Overlaid(disk, staging, after))
  {
    var ops := PublishOps(staging, marker);
    PublishOpsShape(staging, marker);
    RunSucceeds(disk, ops);
    forall op: Op ensures op in ops <==> op.path != [] && IsAt(staging, op.path, op.node) {
      PublishCoversStaging(staging, marker, op);
    }
    ClashIsAnOp(disk, staging, ops);
    var j := RunWritesAPrefix(disk, ops);
    assert ops[..|ops|] == ops;
    WrittenOverlays(disk, staging, ops);
  }

  lemma WrittenOverlays(disk: Disk, staging: Tree, ops: seq<Op>)
    requires Distinct(ops) && forall op: Op :: op in ops <==> op.path != [] && IsAt(staging, op.path, op.node)
    ensures Overlaid(disk, staging, disk + Written(ops))
  {
    forall q, node | q != [] && IsAt(staging, q, node) ensures q in Written(ops) && Written(ops)[q] == node {
      StagedIsWritten(staging, ops, q, node);
    }
    forall q | q == [] || (forall node :: !IsAt(staging, q, node)) ensures q !in Written(ops) {
      OthersAreNotWritten(staging, ops, q);
    }
  }

  lemma StagedIsWritten(staging: Tree, ops: seq<Op>, q: Path, node: Node)
    requires Distinct(ops) && forall op: Op :: op in ops <==> op.path != [] && IsAt(staging, op.path, op.node)
    requires q != [] && IsAt(staging, q, node)
    ensures q in Written(ops) && Written(ops)[q] == node
  {
    WrittenIs(ops, q);
    assert Put(q, node) in ops;
  }

  lemma OthersAreNotWritten(staging: Tree, ops: seq<Op>, q: Path)
    requires Distinct(ops) && forall op: Op :: op in ops <==> op.path != [] && IsAt(staging, op.path, op.node)
    requires q == [] || forall node :: !IsAt(staging, q, node)
    ensures q !in Written(ops)
  {
    WrittenIs(ops, q);
    if q in Written(ops) {
      var op :| op in ops && op.path == q;
      assert IsAt(staging, q, op.node);
    }
  }

  lemma ClashIsAnOp(disk: Disk, staging: Tree, ops: seq<Op>)
    requires forall op: Op :: op in ops <==> op.path != [] && IsAt(staging, op.path, op.node)
    ensures KindClash(disk, staging) <==> exists op :: op in ops && Clashes(disk, op)
  {
    if KindClash(disk, staging) {
      var q, node :| q != [] && IsAt(staging, q, node) && MeetsOtherKind(disk, q, node);
      assert Put(q, node) in ops;
    }
    if exists op :: op in ops && Clashes(disk, op) {
      var op :| op in ops && Clashes(disk, op);
      assert op == Put(op.path, op.node);
    }
  }

  // ---- the marker

  /** After the given number of steps (fewer if one fails), seeing the marker means seeing
      every staged file. */
  ghost predicate MarkerMeansPayload(disk: Disk, staging: Tree, marker: Path, steps: nat)
    requires staging.Dir? && steps <= |PublishOps(staging, marker)|
  {
    var now := ApplyOps(disk, PublishOps(staging, marker)[..steps]).0;
    marker in now ==>
      forall q, node :: q != [] && IsAt(staging, q, node) && node.FileNode? ==> q in now && now[q] == node
  }

  ghost predicate NoFiles(ops: seq<Op>) { forall op :: op in ops ==> op.node.DirNode? }

  /** Nothing but directories is written after the marker. */
  ghost predicate MarkerLast(ops: seq<Op>, marker: Path) {
    forall i, j :: 0 <= i < j < |ops| && ops[i].path == marker ==> ops[j].node.DirNode?
  }

  lemma MarkerLastAppend(a: seq<Op>, b: seq<Op>, m: Path)
    ensures MarkerLast(a + b, m)
       <==> MarkerLast(a, m) && MarkerLast(b, m) && ((exists op :: op in a && op.path == m) ==> NoFiles(b))
  {
    var s := a + b;
    assert forall i :: 0 <= i < |a| ==> s[i] == a[i];
    assert forall i :: 0 <= i < |b| ==> s[|a| + i] == b[i];
    if MarkerLast(s, m) {
      forall i, j | 0 <= i < j < |b| && b[i].path == m ensures b[j].node.DirNode? {
        assert s[|a| + i].path == m && s[|a| + j] == b[j];
      }
      if exists op :: op in a && op.path == m {
        var i :| 0 <= i < |a| && a[i].path == m;
        forall op | op in b ensures op.node.DirNode? {
          var j :| 0 <= j < |b| && b[j] == op;
          assert s[i].path == m && s[|a| + j] == op;
        }
      }
    }
    if MarkerLast(a, m) && MarkerLast(b, m) && ((exists op :: op in a && op.path == m) ==> NoFiles(b)) {
      forall i, j | 0 <= i < j < |s| && s[i].path == m ensures s[j].node.DirNode? {
        if i < |a| <= j {
          assert a[i] in a && s[j] in b;
        } else if i >= |a| {
          assert b[i - |a|].path == m;
        }
      }
    }
  }

  lemma PayloadCameFirst(ops: seq<Op>, j: nat, marker: Path, file: Op)
    requires Distinct(ops) && MarkerLast(ops, marker) && j <= |ops| && marker in Written(ops[..j])
    requires file in ops && file.node.FileNode?
    ensures file.path in Written(ops[..j]) && Written(ops[..j])[file.path] == file.node
  {
    WrittenIs(ops[..j], marker);
    var op :| op in ops[..j] && op.path == marker;
    var i :| 0 <= i < j && ops[i] == op;
    var k :| 0 <= k < |ops| && ops[k] == file;
    assert ops[..j][k] == file;
    WrittenIs(ops[..j], file.path);
  }

  /** At the level of steps the promise is: nothing but directories after the marker. */
  lemma PrefixesAreSafe(disk: Disk, staging: Tree, marker: Path, steps: nat)
    requires staging.Dir? && WellNamed(staging) && marker !in disk
    requires steps <= |PublishOps(staging, marker)| && MarkerLast(PublishOps(staging, marker), marker)
    ensures MarkerMeansPayload(disk, staging, marker, steps)
  {
    var ops := PublishOps(staging, marker);
    PublishOpsShape(staging, marker);
    var j := RunWritesAPrefix(disk, ops[..steps]);
    assert ops[..steps][..j] == ops[..j];
    var now := disk + Written(ops[..j]);
    assert ApplyOps(disk, ops[..steps]).0 == now;
    if marker in now {
      assert marker in Written(ops[..j]);
      forall q, node | q != [] && IsAt(staging, q, node) && node.FileNode? ensures q in now && now[q] == node {
        PublishCoversStaging(staging, marker, Put(q, node));
        PayloadCameFirst(ops, j, marker, Put(q, node));
      }
    }
  }

  lemma FreshRunWritesAll(ops: seq<Op>)
    requires Distinct(ops) && Nested(ops, [])
    ensures ApplyOps(map[], ops).0 == Written(ops)
  {
    RunSucceeds(map[], ops);
    var n := RunWritesAPrefix(map[], ops);
    assert ops[..|ops|] == ops;
  }

  lemma MarkerBeforePayload(ops: seq<Op>, i: nat, j: nat)
    requires Distinct(ops) && i < j < |ops|
    ensures ops[i].path in Written(ops[..i + 1]) && ops[j].path !in Written(ops[..i + 1])
  {
    var front := ops[..i + 1];
    assert front[i] in front;
    WrittenIs(front, ops[i].path);
    WrittenIs(front, ops[j].path);
  }

  /** On an empty destination an unsafe order shows: some prefix has the marker but not a staged file. */
  lemma UnsafeOrderShows(staging: Tree, marker: Path) returns (steps: nat, file: Op)
    requires staging.Dir? && WellNamed(staging) && !MarkerLast(PublishOps(staging, marker), marker)
    ensures steps <= |PublishOps(staging, marker)| && !MarkerMeansPayload(map[], staging, marker, steps)
    ensures marker in ApplyOps(map[], PublishOps(staging, marker)[..steps]).0
    ensures file.path !in ApplyOps(map[], PublishOps(staging, marker)[..steps]).0
    ensures file.path != [] && file.node.FileNode? && IsAt(staging, file.path, file.node)
  {
    var ops := PublishOps(staging, marker);
    PublishOpsShape(staging, marker);
    var i, j :| 0 <= i < j < |ops| && ops[i].path == marker && !ops[j].node.DirNode?;
    steps, file := i + 1, ops[j];
    PrefixShape(ops, steps);
    FreshRunWritesAll(ops[..steps]);
    MarkerBeforePayload(ops, i, j);
    assert ops[j] in ops;
    PublishCoversStaging(staging, marker, ops[j]);
  }

  // ---- the condition on the staged tree

  ghost predicate HasFile(t: Tree) {
    t.File? || exists i :: 0 <= i < |t.kids| && HasFile(t.kids[i].tree)
  }

  ghost predicate Staged(t: Tree, rest: Path) { exists node :: IsAt(t, rest, node) }

  /** Entry j is handled after entry i. */
  ghost predicate ComesAfter(kids: seq<Entry>, key: string, i: nat, j: nat)
    requires i < |kids| && j < |kids|
  {
    if (kids[i].name == key) == (kids[j].name == key) then i < j else kids[j].name == key
  }

  /** The marker, `rest` below t, is safe when it is a file or an empty-handed directory, and
      on the way down nothing handled after it holds a file. */
  ghost predicate Safe(t: Tree, rest: Path, key: string, base: string)
    decreases |rest|
  {
    if rest == [] then t.File? || !HasFile(t)
    else t.Dir? ==> forall i :: 0 <= i < |t.kids| && t.kids[i].name == rest[0] && Staged(t.kids[i].tree, rest[1..]) ==>
           && Safe(t.kids[i].tree, rest[1..], base, base)
           && forall j :: 0 <= j < |t.kids| && ComesAfter(t.kids, key, i, j) ==> !HasFile(t.kids[j].tree)
  }

  lemma {:induction false} FilesAreOps(t: Tree, p: Path, base: string)
    ensures NoFiles(TreeOps(t, p, base)) <==> !HasFile(t)
    decreases t, 1, 0
  {
    if t.Dir? {
      SomeFilesAreOps(t, 0, p, base, base, false);
      SomeFilesAreOps(t, 0, p, base, base, true);
      var a, b := SomeOps(t, 0, p, base, base, false), SomeOps(t, 0, p, base, base, true);
      assert NoFiles(TreeOps(t, p, base)) <==> NoFiles(a) && NoFiles(b) by {
        assert forall op :: op in TreeOps(t, p, base) <==> op == Put(p, DirNode) || op in a || op in b;
      }
    } else {
      assert Put(p, FileNode(t.data)) in TreeOps(t, p, base);
    }
  }

  lemma {:induction false} SomeFilesAreOps(t: Tree, i: nat, p: Path, key: string, base: string, last: bool)
    requires t.Dir? && i <= |t.kids|
    ensures NoFiles(SomeOps(t, i, p, key, base, last))
       <==> forall k :: i <= k < |t.kids| && (t.kids[k].name == key) == last ==> !HasFile(t.kids[k].tree)
    decreases t, 0, |t.kids| - i
  {
    if i < |t.kids| {
      var kid := t.kids[i];
      SomeFilesAreOps(t, i + 1, p, key, base, last);
      FilesAreOps(kid.tree, p + [kid.name], base);
      var a, b := TreeOps(kid.tree, p + [kid.name], base), SomeOps(t, i + 1, p, key, base, last);
      assert forall op :: op in a + b <==> op in a || op in b;
      assert [] + b == b;
    }
  }

  ghost predicate Writes(ops: seq<Op>, m: Path) { exists op :: op in ops && op.path == m }

  lemma TreeWrites(t: Tree, p: Path, base: string, rest: Path)
    ensures Writes(TreeOps(t, p, base), p + rest) <==> Staged(t, rest)
  {
    var m := p + rest;
    assert m[|p|..] == rest && m[..|p|] == p;
    if Writes(TreeOps(t, p, base), m) {
      var op :| op in TreeOps(t, p, base) && op.path == m;
      OpsAreTheTree(t, p, base, op);
    }
    if Staged(t, rest) {
      var node :| IsAt(t, rest, node);
      OpsAreTheTree(t, p, base, Put(m, node));
      assert Put(m, node) in TreeOps(t, p, base);
    }
  }

  /** Entry k, if it leads to the marker, is safe itself and followed by no file of this pass. */
  ghost predicate SafeInPass(t: Tree, k: nat, rest: Path, key: string, base: string, last: bool)
    requires t.Dir? && k < |t.kids| && rest != []
  {
    (t.kids[k].name == key) == last && t.kids[k].name == rest[0] && Staged(t.kids[k].tree, rest[1..]) ==>
      && Safe(t.kids[k].tree, rest[1..], base, base)
      && forall j :: k < j < |t.kids| && (t.kids[j].name == key) == last ==> !HasFile(t.kids[j].tree)
  }

  lemma {:induction false} SafeIsMarkerLast(t: Tree, p: Path, rest: Path, base: string)
    ensures MarkerLast(TreeOps(t, p, base), p + rest) <==> Safe(t, rest, base, base)
    decreases t, 1, 0
  {
    var m := p + rest;
    if t.File? {
      assert Staged(t, rest) ==> rest == [];
    } else {
      var a, b := SomeOps(t, 0, p, base, base, false), SomeOps(t, 0, p, base, base, true);
      MarkerLastAppend([Put(p, DirNode)], a + b, m);
      if rest == [] {
        assert m == p;
        BelowIsNotMarker(t, p, base, base, a + b);
        FilesAreOps(t, p, base);
        assert Put(p, DirNode) in [Put(p, DirNode)];
        assert NoFiles(TreeOps(t, p, base)) <==> NoFiles(a + b);
      } else {
        PassesSafe(t, p, rest, base, base);
        assert forall op :: op in [Put(p, DirNode)] ==> op.path != m by { assert |m| > |p|; }
      }
    }
  }

  lemma BelowIsNotMarker(t: Tree, p: Path, key: string, base: string, ops: seq<Op>)
    requires t.Dir? && ops == SomeOps(t, 0, p, key, base, false) + SomeOps(t, 0, p, key, base, true)
    ensures MarkerLast(ops, p)
  {
    forall i | 0 <= i < |ops| ensures ops[i].path != p {
      SomeOpsAreTheTree(t, 0, p, key, base, false, ops[i]);
      SomeOpsAreTheTree(t, 0, p, key, base, true, ops[i]);
      assert p[|p|..] == [];
    }
  }

  /** Both passes over a directory, for a marker below it. */
  lemma {:induction false} PassesSafe(t: Tree, p: Path, rest: Path, key: string, base: string)
    requires t.Dir? && rest != []
    ensures MarkerLast(SomeOps(t, 0, p, key, base, false) + SomeOps(t, 0, p, key, base, true), p + rest)
       <==> Safe(t, rest, key, base)
    decreases t, 0, |t.kids| + 1
  {
    var a, b := SomeOps(t, 0, p, key, base, false), SomeOps(t, 0, p, key, base, true);
    MarkerLastAppend(a, b, p + rest);
    SafePass(t, 0, p, rest, key, base, false);
    SafePass(t, 0, p, rest, key, base, true);
    SomeFilesAreOps(t, 0, p, key, base, true);
    SomeWrites(t, p, rest, key, base, false);
    SafeByPasses(t, rest, key, base);
  }

  ghost predicate LeadsTo(t: Tree, k: nat, rest: Path)
    requires t.Dir? && k < |t.kids| && rest != []
  {
    t.kids[k].name == rest[0] && Staged(t.kids[k].tree, rest[1..])
  }

  lemma SomeWrites(t: Tree, p: Path, rest: Path, key: string, base: string, last: bool)
    requires t.Dir? && rest != []
    ensures Writes(SomeOps(t, 0, p, key, base, last), p + rest)
       <==> exists k :: 0 <= k < |t.kids| && (t.kids[k].name == key) == last && LeadsTo(t, k, rest)
  {
    var m := p + rest;
    assert m[|p|..] == rest && m[..|p|] == p;
    var ops := SomeOps(t, 0, p, key, base, last);
    if Writes(ops, m) {
      var op :| op in ops && op.path == m;
      SomeOpsAreTheTree(t, 0, p, key, base, last, op);
      var k :| 0 <= k < |t.kids| && (t.kids[k].name == key) == last && t.kids[k].name == rest[0]
               && IsAt(t.kids[k].tree, rest[1..], op.node);
      assert LeadsTo(t, k, rest);
    }
    if exists k :: 0 <= k < |t.kids| && (t.kids[k].name == key) == last && LeadsTo(t, k, rest) {
      var k :| 0 <= k < |t.kids| && (t.kids[k].name == key) == last && LeadsTo(t, k, rest);
      var node :| IsAt(t.kids[k].tree, rest[1..], node);
      SomeOpsAreTheTree(t, 0, p, key, base, last, Put(m, node));
      assert Put(m, node) in ops;
    }
  }

  lemma SafeByPasses(t: Tree, rest: Path, key: string, base: string)
    requires t.Dir? && rest != []
    ensures Safe(t, rest, key, base)
       <==> && (forall k :: 0 <= k < |t.kids| ==> SafeInPass(t, k, rest, key, base, false))
            && (forall k :: 0 <= k < |t.kids| ==> SafeInPass(t, k, rest, key, base, true))
            && ((exists k :: 0 <= k < |t.kids| && (t.kids[k].name == key) == false && LeadsTo(t, k, rest)) ==>
                  forall j :: 0 <= j < |t.kids| && (t.kids[j].name == key) == true ==> !HasFile(t.kids[j].tree))
  {
    if Safe(t, rest, key, base) {
      forall k, last | 0 <= k < |t.kids| ensures SafeInPass(t, k, rest, key, base, last) {
        assert forall j :: k < j < |t.kids| && (t.kids[j].name == key) == (t.kids[k].name == key) ==>
                 ComesAfter(t.kids, key, k, j);
      }
      if exists k :: 0 <= k < |t.kids| && (t.kids[k].name == key) == false && LeadsTo(t, k, rest) {
        var k :| 0 <= k < |t.kids| && (t.kids[k].name == key) == false && LeadsTo(t, k, rest);
        assert forall j :: 0 <= j < |t.kids| && t.kids[j].name == key ==> ComesAfter(t.kids, key, k, j);
      }
    }
    if && (forall k :: 0 <= k < |t.kids| ==> SafeInPass(t, k, rest, key, base, false))
       && (forall k :: 0 <= k < |t.kids| ==> SafeInPass(t, k, rest, key, base, true))
       && ((exists k :: 0 <= k < |t.kids| && (t.kids[k].name == key) == false && LeadsTo(t, k, rest)) ==>
             forall j :: 0 <= j < |t.kids| && (t.kids[j].name == key) == true ==> !HasFile(t.kids[j].tree))
    {
      forall i | 0 <= i < |t.kids| && t.kids[i].name == rest[0] && Staged(t.kids[i].tree, rest[1..])
        ensures Safe(t.kids[i].tree, rest[1..], base, base)
        ensures forall j :: 0 <= j < |t.kids| && ComesAfter(t.kids, key, i, j) ==> !HasFile(t.kids[j].tree)
      {
        assert LeadsTo(t, i, rest);
        assert SafeInPass(t, i, rest, key, base, false) && SafeInPass(t, i, rest, key, base, true);
      }
    }
  }

  lemma {:induction false} SafePass(t: Tree, i: nat, p: Path, rest: Path, key: string, base: string, last: bool)
    requires t.Dir? && i <= |t.kids| && rest != []
    ensures MarkerLast(SomeOps(t, i, p, key, base, last), p + rest)
       <==> forall k :: i <= k < |t.kids| ==> SafeInPass(t, k, rest, key, base, last)
    decreases t, 0, |t.kids| - i
  {
    if i < |t.kids| {
      var kid, m := t.kids[i], p + rest;
      var b := SomeOps(t, i + 1, p, key, base, last);
      SafePass(t, i + 1, p, rest, key, base, last);
      if (kid.name == key) == last {
        assert m == (p + [kid.name]) + rest[1..] || kid.name != rest[0];
        SafeIsMarkerLast(kid.tree, p + [kid.name], rest[1..], base);
        SafeEntry(t, i, p, rest, key, base, last);
      } else {
        assert [] + b == b;
      }
    }
  }

  lemma SafeEntry(t: Tree, i: nat, p: Path, rest: Path, key: string, base: string, last: bool)
    requires t.Dir? && i < |t.kids| && rest != [] && (t.kids[i].name == key) == last
    requires MarkerLast(TreeOps(t.kids[i].tree, p + [t.kids[i].name], base), (p + [t.kids[i].name]) + rest[1..])
        <==> Safe(t.kids[i].tree, rest[1..], base, base)
    ensures MarkerLast(SomeOps(t, i, p, key, base, last), p + rest)
       <==> MarkerLast(SomeOps(t, i + 1, p, key, base, last), p + rest) && SafeInPass(t, i, rest, key, base, last)
  {
    var kid, m := t.kids[i], p + rest;
    var a, b := TreeOps(kid.tree, p + [kid.name], base), SomeOps(t, i + 1, p, key, base, last);
    MarkerLastAppend(a, b, m);
    if kid.name == rest[0] {
      assert m == (p + [kid.name]) + rest[1..];
      SomeFilesAreOps(t, i + 1, p, key, base, last);
      TreeWrites(kid.tree, p + [kid.name], base, rest[1..]);
      if !Staged(kid.tree, rest[1..]) {
        SafeIfAbsent(kid.tree, rest[1..], base, base);
      }
    } else {
      ElsewhereWritesNot(kid, p, base, m, rest);
    }
  }

  lemma {:induction false} SafeIfAbsent(t: Tree, rest: Path, key: string, base: string)
    requires !Staged(t, rest)
    ensures Safe(t, rest, key, base)
  {
    if rest == [] {
      assert IsAt(t, rest, NodeOf(t));
    } else if t.Dir? {
      forall i | 0 <= i < |t.kids| && t.kids[i].name == rest[0] ensures !Staged(t.kids[i].tree, rest[1..]) {
        if Staged(t.kids[i].tree, rest[1..]) {
          var node :| IsAt(t.kids[i].tree, rest[1..], node);
          assert IsAt(t, rest, node);
        }
      }
    }
  }

  lemma ElsewhereWritesNot(kid: Entry, p: Path, base: string, m: Path, rest: Path)
    requires rest != [] && m == p + rest && kid.name != rest[0]
    ensures !Writes(TreeOps(kid.tree, p + [kid.name], base), m)
    ensures MarkerLast(TreeOps(kid.tree, p + [kid.name], base), m)
  {
    var ops := TreeOps(kid.tree, p + [kid.name], base);
    forall op | op in ops ensures op.path != m {
      OpsAreTheTree(kid.tree, p + [kid.name], base, op);
      UnderKid(p, kid.name, op.path);
    }
    assert forall i :: 0 <= i < |ops| ==> ops[i] in ops;
  }

  /** When publishing keeps its promise, for any destination without the marker and at every
      instant: exactly when the marker is not staged at all, or on the way to it nothing that
      is handled later holds a file and it has no file beneath. */
  lemma MarkerIsLastExactly(staging: Tree, marker: Path)
    requires staging.Dir? && WellNamed(staging) && marker != []
    ensures (forall disk: Disk, steps: nat :: marker !in disk && steps <= |PublishOps(staging, marker)| ==>
               MarkerMeansPayload(disk, staging, marker, steps))
       <==> Safe(staging, marker, marker[0], marker[|marker| - 1])
  {
    PassesSafe(staging, [], marker, FirstOf(marker), BaseOf(marker));
    assert [] + marker == marker;
    if Safe(staging, marker, marker[0], marker[|marker| - 1]) {
      forall disk: Disk, steps: nat | marker !in disk && steps <= |PublishOps(staging, marker)|
        ensures MarkerMeansPayload(disk, staging, marker, steps)
      {
        PrefixesAreSafe(disk, staging, marker, steps);
      }
    } else {
      var steps, file := UnsafeOrderShows(staging, marker);
    }
  }

  /** The promised case: a file marker at depth one or two. */
  lemma ShallowFileMarkerIsSafe(disk: Disk, staging: Tree, marker: Path, data: string, steps: nat)
    requires staging.Dir? && WellNamed(staging) && marker !in disk && 1 <= |marker| <= 2
    requires IsAt(staging, marker, FileNode(data)) && steps <= |PublishOps(staging, marker)|
    ensures MarkerMeansPayload(disk, staging, marker, steps)
  {
    assert marker[1..] == [] || (|marker| == 2 && marker[1..] == [BaseOf(marker)] && marker[1..][1..] == []);
    var i :| 0 <= i < |staging.kids| && staging.kids[i].name == marker[0]
             && IsAt(staging.kids[i].tree, marker[1..], FileNode(data));
    var t := staging.kids[i].tree;
    if |marker| == 2 {
      var k :| 0 <= k < |t.kids| && t.kids[k].name == BaseOf(marker)
               && IsAt(t.kids[k].tree, marker[1..][1..], FileNode(data));
      HeldBackIsSafe(t, marker[1..], BaseOf(marker), k);
    }
    HeldBackIsSafe(staging, marker, BaseOf(marker), i);
    MarkerIsLastExactly(staging, marker);
  }

  /** The entry an order holds back is followed by nothing. */
  lemma HeldBackIsSafe(t: Tree, rest: Path, base: string, k: nat)
    requires t.Dir? && WellNamed(t) && rest != [] && k < |t.kids| && t.kids[k].name == rest[0]
    requires Safe(t.kids[k].tree, rest[1..], base, base)
    ensures Safe(t, rest, rest[0], base)
  {
    forall i | 0 <= i < |t.kids| && t.kids[i].name == rest[0]
      ensures i == k && forall j :: 0 <= j < |t.kids| ==> !ComesAfter(t.kids, rest[0], i, j)
    {
    }
  }

  /** A fetch that brought no marker never makes the leg look complete. */
  lemma NoMarkerNoCompletion(disk: Disk, staging: Tree, marker: Path, steps: nat)
    requires staging.Dir? && WellNamed(staging) && marker != [] && marker !in disk && !Staged(staging, marker)
    requires steps <= |PublishOps(staging, marker)|
    ensures marker !in ApplyOps(disk, PublishOps(staging, marker)[..steps]).0
  {
    var ops := PublishOps(staging, marker);
    PublishOpsShape(staging, marker);
    var j := RunWritesAPrefix(disk, ops[..steps]);
    assert ops[..steps][..j] == ops[..j];
    WrittenIs(ops[..j], marker);
    forall op | op in ops ensures op.path != marker {
      PublishCoversStaging(staging, marker, op);
    }
  }

  function Only(name: string, t: Tree): Tree { Dir([Entry(name, t)]) }

  lemma UnsafeBelow(name: string, t: Tree, rest: Path, base: string, node: Node)
    requires IsAt(t, rest, node) && !Safe(t, rest, base, base)
    ensures !Safe(Only(name, t), [name] + rest, name, base)
  {
    assert ([name] + rest)[1..] == rest && ([name] + rest)[0] == name;
    assert Only(name, t).kids[0].tree == t;
    assert Staged(t, rest);
  }

  lemma Overtaken(t: Tree, rest: Path, key: string, base: string, i: nat, j: nat, node: Node)
    requires t.Dir? && i < |t.kids| && j < |t.kids| && rest != [] && t.kids[i].name == rest[0]
    requires IsAt(t.kids[i].tree, rest[1..], node) && ComesAfter(t.kids, key, i, j) && HasFile(t.kids[j].tree)
    ensures !Safe(t, rest, key, base) && IsAt(t, rest, node)
  {
    assert Staged(t.kids[i].tree, rest[1..]);
  }

  lemma OnlyHolds(name: string, data: string)
    ensures IsAt(Only(name, File(data)), [name], FileNode(data))
  {
    assert Only(name, File(data)).kids[0].tree == File(data) && [name][1..] == [];
  }

  /** Two entries as the publisher reads them. */
  function InOrder(a: Entry, b: Entry): seq<Entry> { if Before(a.name, b.name) then [a, b] else [b, a] }

  /** Outside the promise: at depth three the marker's directory is not held back, so a sibling
      of that directory arrives after the marker exactly when its name sorts later. */
  lemma DeepMarkerOvertakesPayload(top: string, sub: string, base: string, sibling: string, payload: string)
    requires top != "" && sub != "" && base != "" && sibling != "" && sub != base && sibling != base && sub != sibling
    ensures var staging := Only(top, Dir(InOrder(Entry(sub, Only(base, File("ok"))), Entry(sibling, File(payload)))));
            AsRead(staging) && (Safe(staging, [top, sub, base], top, base) <==> Before(sibling, sub))
  {
    var a, b := Entry(sub, Only(base, File("ok"))), Entry(sibling, File(payload));
    var out := Dir(InOrder(a, b));
    BeforeIsStrict(sub, sibling);
    BeforeIsTotal(sub, sibling);
    OnlyHolds(base, "ok");
    assert [sub, base][1..] == [base] && [top] + [sub, base] == [top, sub, base];
    assert AsRead(a.tree) && AsRead(b.tree) && AsRead(out);
    if Before(sub, sibling) {
      Overtaken(out, [sub, base], base, base, 0, 1, FileNode("ok"));
      UnsafeBelow(top, out, [sub, base], base, FileNode("ok"));
    } else {
      assert out == Dir([b, a]);
      LastSiblingIsSafe(top, out, b, a, base);
    }
  }

  lemma OnlyFileIsSafe(base: string, data: string)
    ensures Safe(Only(base, File(data)), [base], base, base)
  {
    assert [base][1..] == [];
  }

  lemma LastSiblingIsSafe(top: string, out: Tree, first: Entry, second: Entry, base: string)
    requires out == Dir([first, second]) && second.tree == Only(base, File("ok"))
    requires first.name != second.name && first.name != base && second.name != base
    ensures Safe(Only(top, out), [top, second.name, base], top, base)
  {
    var sub := second.name;
    assert [top, sub, base][1..] == [sub, base] && [sub, base][1..] == [base] && [base][1..] == [];
    OnlyFileIsSafe(base, "ok");
    assert Safe(out, [sub, base], base, base) by {
      assert forall j :: 0 <= j < 2 ==> !ComesAfter(out.kids, base, 1, j);
    }
  }

  /** Outside the promise: a directory as marker, the default when a leg names no other, is
      made before its contents. */
  lemma DirectoryMarkerOvertakesPayload(top: string, name: string, payload: string)
    ensures !Safe(Only(top, Only(name, File(payload))), [top], top, top)
  {
    var out := Only(name, File(payload));
    assert HasFile(out.kids[0].tree) && HasFile(out);
    UnsafeBelow(top, out, [], top, DirNode);
    assert [top] + [] == [top];
  }
}

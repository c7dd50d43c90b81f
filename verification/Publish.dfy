/** Publishing a staged tree into a destination, as the list of its atomic steps. */
module Publish {
  import opened Prelude
  import opened Strings

  type Path = seq<string>

  datatype Node = DirNode | FileNode(data: string)

  /** A directory as the publisher reads it: its entries, sorted by name. */
  datatype Tree = File(data: string) | Dir(kids: seq<Entry>)
  datatype Entry = Entry(name: string, tree: Tree)

  /** One atomic step: create a directory, or move a whole file into place. */
  datatype Op = Put(path: Path, node: Node)

  type Disk = map<Path, Node>

  ghost predicate WellNamed(t: Tree) {
    t.Dir? ==>
      && (forall i :: 0 <= i < |t.kids| ==> t.kids[i].name != "" && WellNamed(t.kids[i].tree))
      && (forall i, j :: 0 <= i < j < |t.kids| ==> t.kids[i].name != t.kids[j].name)
  }

  /** Every directory's entries are in order of their names, as they are read from disk. */
  ghost predicate AsRead(t: Tree) {
    t.Dir? ==>
      && (forall i :: 0 <= i < |t.kids| ==> t.kids[i].name != "" && AsRead(t.kids[i].tree))
      && (forall i, j :: 0 <= i < j < |t.kids| ==> Before(t.kids[i].name, t.kids[j].name))
  }

  /** So no two entries of a directory share a name, which is all the theorems need. */
  lemma {:induction false} ReadTreesAreWellNamed(t: Tree)
    requires AsRead(t)
    ensures WellNamed(t)
  {
    if t.Dir? {
      forall i | 0 <= i < |t.kids| ensures WellNamed(t.kids[i].tree) {
        ReadTreesAreWellNamed(t.kids[i].tree);
      }
      forall i, j | 0 <= i < j < |t.kids| ensures t.kids[i].name != t.kids[j].name {
        BeforeIsStrict(t.kids[i].name, t.kids[j].name);
      }
    }
  }

  function NodeOf(t: Tree): Node {
    if t.File? then FileNode(t.data) else DirNode
  }

  // ---- the steps, in order

  /** A directory is made before its contents; among its entries the one called `base`, the
      marker's last component, is handled last. */
  function TreeOps(t: Tree, p: Path, base: string): seq<Op>
    decreases t, 1, 0
  {
    if t.File? then [Put(p, FileNode(t.data))]
    else [Put(p, DirNode)] + (SomeOps(t, 0, p, base, base, false) + SomeOps(t, 0, p, base, base, true))
  }

  /** The steps for the entries from i on that are, or are not, called `key`. */
  function SomeOps(t: Tree, i: nat, p: Path, key: string, base: string, last: bool): seq<Op>
    requires t.Dir? && i <= |t.kids|
    decreases t, 0, |t.kids| - i
  {
    if i == |t.kids| then []
    else
      (if (t.kids[i].name == key) == last then TreeOps(t.kids[i].tree, p + [t.kids[i].name], base) else [])
      + SomeOps(t, i + 1, p, key, base, last)
  }

  function FirstOf(marker: Path): string { if marker == [] then "" else marker[0] }

  function BaseOf(marker: Path): string { if marker == [] then "" else marker[|marker| - 1] }

  /** At the top the entry the marker lives in goes last, below that only its last component counts. */
  function PublishOps(staging: Tree, marker: Path): seq<Op>
    requires staging.Dir?
  {
    SomeOps(staging, 0, [], FirstOf(marker), BaseOf(marker), false)
    + SomeOps(staging, 0, [], FirstOf(marker), BaseOf(marker), true)
  }

  // ---- the file system

  function Parent(p: Path): Path
    requires p != []
  {
    p[..|p| - 1]
  }

  predicate IsDir(disk: Disk, p: Path) { p == [] || (p in disk && disk[p].DirNode?) }

  /** A file is not moved onto a directory, nor a directory made where a file is. */
  predicate Clashes(disk: Disk, op: Op) {
    op.path in disk && disk[op.path].DirNode? != op.node.DirNode?
  }

  predicate Succeeds(disk: Disk, op: Op) {
    op.path != [] && IsDir(disk, Parent(op.path)) && !Clashes(disk, op)
  }

  /** Runs the steps until one fails. */
  function ApplyOps(disk: Disk, ops: seq<Op>): (Disk, bool)
    decreases |ops|
  {
    if ops == [] then (disk, true)
    else if Succeeds(disk, ops[0]) then ApplyOps(disk[ops[0].path := ops[0].node], ops[1..])
    else (disk, false)
  }

  lemma {:induction false} ApplyAppend(disk: Disk, a: seq<Op>, b: seq<Op>)
    ensures ApplyOps(disk, a + b) == if ApplyOps(disk, a).1 then ApplyOps(ApplyOps(disk, a).0, b) else ApplyOps(disk, a)
    decreases |a|
  {
    if a == [] {
      assert a + b == b;
    } else {
      assert (a + b)[1..] == a[1..] + b;
      if Succeeds(disk, a[0]) {
        ApplyAppend(disk[a[0].path := a[0].node], a[1..], b);
      }
    }
  }

  /** The same merge, written as the program runs it. */
  class FileTree {
    var nodes: Disk

    constructor ()
      ensures nodes == map[]
    {
      nodes := map[];
    }

    method PutNode(p: Path, node: Node) returns (ok: bool)
      modifies this
      ensures (nodes, ok) == ApplyOps(old(nodes), [Put(p, node)])
    {
      ok := Succeeds(nodes, Put(p, node));
      if ok {
        nodes := nodes[p := node];
      }
    }

    method MergeDir(src: Tree, dest: Path, base: string) returns (ok: bool)
      requires src.Dir?
      modifies this
      ensures (nodes, ok) == ApplyOps(old(nodes), TreeOps(src, dest, base))
      decreases src, 1, 0
    {
      ghost var before := nodes;
      ghost var first, second := SomeOps(src, 0, dest, base, base, false), SomeOps(src, 0, dest, base, base, true);
      ApplyAppend(before, [Put(dest, DirNode)], first + second);
      ok := PutNode(dest, DirNode);
      if ok {
        ApplyAppend(nodes, first, second);
        ok := MergeSome(src, dest, base, base, false);
      }
      if ok {
        ok := MergeSome(src, dest, base, base, true);
      }
    }

    method MergeSome(src: Tree, dest: Path, key: string, base: string, last: bool) returns (ok: bool)
      requires src.Dir?
      modifies this
      ensures (nodes, ok) == ApplyOps(old(nodes), SomeOps(src, 0, dest, key, base, last))
      decreases src, 0, 0
    {
      ghost var goal := ApplyOps(nodes, SomeOps(src, 0, dest, key, base, last));
      for i := 0 to |src.kids|
        invariant goal == ApplyOps(nodes, SomeOps(src, i, dest, key, base, last))
      {
        var kid := src.kids[i];
        ghost var rest := SomeOps(src, i + 1, dest, key, base, last);
        if (kid.name == key) == last {
          ghost var own := TreeOps(kid.tree, dest + [kid.name], base);
          ApplyAppend(nodes, own, rest);
          assert SomeOps(src, i, dest, key, base, last) == own + rest;
          if kid.tree.Dir? {
            ok := MergeDir(kid.tree, dest + [kid.name], base);
          } else {
            ok := PutNode(dest + [kid.name], FileNode(kid.tree.data));
          }
          if !ok {
            return;
          }
        } else {
          assert SomeOps(src, i, dest, key, base, last) == [] + rest == rest;
        }
      }
      ok := true;
    }

    method Publish(staging: Tree, marker: Path) returns (ok: bool)
      requires staging.Dir?
      modifies this
      ensures (nodes, ok) == ApplyOps(old(nodes), PublishOps(staging, marker))
    {
      var key, base := FirstOf(marker), BaseOf(marker);
      ApplyAppend(nodes, SomeOps(staging, 0, [], key, base, false), SomeOps(staging, 0, [], key, base, true));
      ok := MergeSome(staging, [], key, base, false);
      if ok {
        ok := MergeSome(staging, [], key, base, true);
      }
    }

    /** A fetch publishes whatever the copy brought; the copy's exit code is not looked at. */
    method Fetch(wanted: bool, copied: Tree, rc: int, marker: Path) returns (ok: bool)
      requires copied.Dir?
      modifies this
      ensures (nodes, ok) == if wanted then ApplyOps(old(nodes), PublishOps(copied, marker)) else (old(nodes), true)
    {
      ok := true;
      if wanted {
        ok := Publish(copied, marker);
      }
    }

    /** A leg counts as complete when its marker is there; without a marker it never does. */
    method Complete(marker: Path) returns (done: bool)
      ensures done <==> marker != [] && marker in nodes
    {
      done := marker != [] && marker in nodes;
    }
  }
}

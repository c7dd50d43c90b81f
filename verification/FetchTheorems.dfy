/** What a fetch may claim about the remote output, when the copy it publishes may be torn. */
module FetchTheorems {
  import opened Publish
  import opened PublishTheorems
  import opened Strings

  /** What a copy of `remote` may have left when it stopped: any of the remote's directories and
      files, each under its own path, a file possibly cut short. */
  ghost predicate CopyOf(staged: Tree, remote: Tree) {
    staged.Dir? && AsRead(staged) && forall q, node :: q != [] && IsAt(staged, q, node) ==> PartOf(remote, q, node)
  }

  ghost predicate PartOf(remote: Tree, q: Path, node: Node) {
    match node
    case DirNode => IsAt(remote, q, DirNode)
    case FileNode(data) => exists whole :: data <= whole && IsAt(remote, q, FileNode(whole))
  }

  /** The remote has this file besides the marker. */
  ghost predicate IsPayload(remote: Tree, marker: Path, q: Path, data: string) {
    q != [] && q != marker && IsAt(remote, q, FileNode(data))
  }

  /** After some steps of publishing the copy, seeing the marker means having the remote's whole payload. */
  ghost predicate MarkerMeansRemote(disk: Disk, staged: Tree, remote: Tree, marker: Path, steps: nat)
    requires staged.Dir? && steps <= |PublishOps(staged, marker)|
  {
    var now := ApplyOps(disk, PublishOps(staged, marker)[..steps]).0;
    marker in now ==> forall q, data :: IsPayload(remote, marker, q, data) ==> q in now && now[q] == FileNode(data)
  }

  /** So at every instant, whatever the leg directory held, as long as it had no marker. */
  ghost predicate FetchKeepsPromise(staged: Tree, remote: Tree, marker: Path)
    requires staged.Dir?
  {
    forall disk: Disk, steps: nat :: marker !in disk && steps <= |PublishOps(staged, marker)| ==>
      MarkerMeansRemote(disk, staged, remote, marker, steps)
  }

  ghost predicate AllArrived(staged: Tree, remote: Tree, marker: Path) {
    forall q, data :: IsPayload(remote, marker, q, data) ==> IsAt(staged, q, FileNode(data))
  }

  ghost predicate MarkerIsSafe(staged: Tree, marker: Path)
    requires marker != []
  {
    Safe(staged, marker, marker[0], marker[|marker| - 1])
  }

  /** One fetch keeps the promise exactly when its copy stopped before the marker, or the whole
      payload arrived and the publish order is safe. */
  lemma FetchIsSafeExactly(staged: Tree, remote: Tree, marker: Path)
    requires CopyOf(staged, remote) && marker != []
    ensures FetchKeepsPromise(staged, remote, marker)
       <==> !Staged(staged, marker) || (AllArrived(staged, remote, marker) && MarkerIsSafe(staged, marker))
  {
    ReadTreesAreWellNamed(staged);
    if !Staged(staged, marker) {
      UnstagedMarkerStaysAway(staged, remote, marker);
    } else if !AllArrived(staged, remote, marker) {
      TornCopyShows(staged, remote, marker);
    } else if !MarkerIsSafe(staged, marker) {
      BadOrderShows(staged, remote, marker);
    } else {
      WholeCopyIsSafe(staged, remote, marker);
    }
  }

  lemma UnstagedMarkerStaysAway(staged: Tree, remote: Tree, marker: Path)
    requires staged.Dir? && WellNamed(staged) && marker != [] && !Staged(staged, marker)
    ensures FetchKeepsPromise(staged, remote, marker)
  {
    forall disk: Disk, steps: nat | marker !in disk && steps <= |PublishOps(staged, marker)|
      ensures MarkerMeansRemote(disk, staged, remote, marker, steps)
    {
      NoMarkerNoCompletion(disk, staged, marker, steps);
    }
  }

  /** A finished publish of a copy with the marker but without some payload, into an empty directory. */
  lemma TornCopyShows(staged: Tree, remote: Tree, marker: Path)
    requires staged.Dir? && WellNamed(staged) && marker != [] && Staged(staged, marker)
    requires !AllArrived(staged, remote, marker)
    ensures !FetchKeepsPromise(staged, remote, marker)
  {
    var q, data :| IsPayload(remote, marker, q, data) && !IsAt(staged, q, FileNode(data));
    var found :| IsAt(staged, marker, found);
    var ops := PublishOps(staged, marker);
    var disk: Disk := map[];
    CompletedPublishOverlays(disk, staged, marker);
    assert ops[..|ops|] == ops;
    var now := ApplyOps(disk, ops).0;
    assert marker in now;
    assert !MarkerMeansRemote(disk, staged, remote, marker, |ops|);
  }

  lemma BadOrderShows(staged: Tree, remote: Tree, marker: Path)
    requires CopyOf(staged, remote) && WellNamed(staged) && marker != [] && !MarkerIsSafe(staged, marker)
    ensures !FetchKeepsPromise(staged, remote, marker)
  {
    PassesSafe(staged, [], marker, FirstOf(marker), BaseOf(marker));
    assert [] + marker == marker;
    var steps, file := UnsafeOrderShows(staged, marker);
    var whole :| file.node.data <= whole && IsAt(remote, file.path, FileNode(whole));
    assert IsPayload(remote, marker, file.path, whole);
    var disk: Disk := map[];
    assert !MarkerMeansRemote(disk, staged, remote, marker, steps);
  }

  lemma WholeCopyIsSafe(staged: Tree, remote: Tree, marker: Path)
    requires staged.Dir? && WellNamed(staged) && marker != [] && MarkerIsSafe(staged, marker)
    requires AllArrived(staged, remote, marker)
    ensures FetchKeepsPromise(staged, remote, marker)
  {
    MarkerIsLastExactly(staged, marker);
    forall disk: Disk, steps: nat | marker !in disk && steps <= |PublishOps(staged, marker)|
      ensures MarkerMeansRemote(disk, staged, remote, marker, steps)
    {
      assert MarkerMeansPayload(disk, staged, marker, steps);
    }
  }

  /** A copy that ended with exit code 0 brought everything: then the order alone decides. */
  lemma CompleteCopyIsSafeExactly(remote: Tree, marker: Path)
    requires remote.Dir? && AsRead(remote) && marker != []
    ensures CopyOf(remote, remote)
    ensures FetchKeepsPromise(remote, remote, marker) <==> MarkerIsSafe(remote, marker)
  {
    forall q, node | q != [] && IsAt(remote, q, node) ensures PartOf(remote, q, node) {
    }
    FetchIsSafeExactly(remote, remote, marker);
    if !Staged(remote, marker) {
      SafeIfAbsent(remote, marker, marker[0], marker[|marker| - 1]);
    }
  }

  // ---- every copy

  /** The copy that got this far along the path and stopped. */
  function Spine(marker: Path, leaf: Tree): Tree {
    if marker == [] then leaf else Only(marker[0], Spine(marker[1..], leaf))
  }

  /** A node by itself: a file, or a directory without its contents. */
  function Alone(node: Node): Tree {
    match node
    case DirNode => Dir([])
    case FileNode(data) => File(data)
  }

  lemma {:induction false} SpineIsRead(marker: Path, node: Node)
    requires forall name :: name in marker ==> name != ""
    ensures AsRead(Spine(marker, Alone(node))) && IsAt(Spine(marker, Alone(node)), marker, node)
  {
    if marker != [] {
      assert marker[0] in marker && forall name :: name in marker[1..] ==> name in marker;
      SpineIsRead(marker[1..], node);
      assert Spine(marker, Alone(node)).kids[0].tree == Spine(marker[1..], Alone(node));
    }
  }

  lemma {:induction false} SpineHolds(remote: Tree, marker: Path, node: Node, q: Path, held: Node)
    requires IsAt(remote, marker, node) && IsAt(Spine(marker, Alone(node)), q, held)
    ensures IsAt(remote, q, held) && (held.FileNode? ==> q == marker)
    decreases |marker|
  {
    if marker != [] && q != [] {
      var i :| 0 <= i < |remote.kids| && remote.kids[i].name == marker[0]
               && IsAt(remote.kids[i].tree, marker[1..], node);
      SpineHolds(remote.kids[i].tree, marker[1..], node, q[1..], held);
    }
  }

  lemma SpineIsACopy(remote: Tree, marker: Path, node: Node)
    requires marker != [] && (forall name :: name in marker ==> name != "") && IsAt(remote, marker, node)
    ensures CopyOf(Spine(marker, Alone(node)), remote) && Staged(Spine(marker, Alone(node)), marker)
    ensures forall q, d :: IsPayload(remote, marker, q, d) ==> !IsAt(Spine(marker, Alone(node)), q, FileNode(d))
  {
    var staged := Spine(marker, Alone(node));
    SpineIsRead(marker, node);
    forall q, held | q != [] && IsAt(staged, q, held)
      ensures PartOf(remote, q, held) && (held.FileNode? ==> q == marker)
    {
      SpineHolds(remote, marker, node, q, held);
    }
  }

  lemma CopiesComeFromTheRemote(staged: Tree, remote: Tree, marker: Path)
    requires CopyOf(staged, remote) && marker != [] && Staged(staged, marker)
    ensures Staged(remote, marker)
  {
    var node :| IsAt(staged, marker, node);
    assert PartOf(remote, marker, node);
  }

  /** A fetch whose exit code nobody reads keeps the promise, whatever its copy brought, exactly
      when the remote has no marker yet, or no file besides it. For a directory as marker, the
      default, that leaves a tree of empty directories. */
  lemma UncheckedFetchIsSafeExactly(remote: Tree, marker: Path)
    requires marker != [] && forall name :: name in marker ==> name != ""
    ensures (forall staged :: CopyOf(staged, remote) ==> FetchKeepsPromise(staged, remote, marker))
       <==> !Staged(remote, marker) || forall q, d :: !IsPayload(remote, marker, q, d)
  {
    if !Staged(remote, marker) {
      forall staged | CopyOf(staged, remote) ensures FetchKeepsPromise(staged, remote, marker) {
        if Staged(staged, marker) {
          CopiesComeFromTheRemote(staged, remote, marker);
        }
        FetchIsSafeExactly(staged, remote, marker);
      }
    } else {
      var node :| IsAt(remote, marker, node);
      var staged := Spine(marker, Alone(node));
      SpineIsACopy(remote, marker, node);
      FetchIsSafeExactly(staged, remote, marker);
    }
  }

  /** The smallest case: a remote with a payload and a marker, a copy that brought the marker
      alone, an empty leg directory. The leg looks complete, here and on every relaunch. */
  lemma TornFetchLooksComplete(name: string, payload: string, text: string)
    requires name != "" && payload != "" && name != payload
    ensures var staged := Spine([name], File("ok"));
            var remote := Dir(InOrder(Entry(name, File("ok")), Entry(payload, File(text))));
            && AsRead(remote) && CopyOf(staged, remote)
            && [name] in ApplyOps(map[], PublishOps(staged, [name])).0
            && [payload] !in ApplyOps(map[], PublishOps(staged, [name])).0
  {
    var staged := Spine([name], File("ok"));
    var remote := Dir(InOrder(Entry(name, File("ok")), Entry(payload, File(text))));
    BeforeIsStrict(name, payload);
    BeforeIsTotal(name, payload);
    assert [name][1..] == [];
    var i := if Before(name, payload) then 0 else 1;
    assert remote.kids[i] == Entry(name, File("ok")) && IsAt(remote.kids[i].tree, [name][1..], FileNode("ok"));
    assert IsAt(remote, [name], FileNode("ok"));
    assert Alone(FileNode("ok")) == File("ok");
    SpineIsACopy(remote, [name], FileNode("ok"));
    TornPublish(staged, name, payload);
  }

  lemma TornPublish(staged: Tree, name: string, payload: string)
    requires name != "" && name != payload && staged == Spine([name], File("ok"))
    ensures [name] in ApplyOps(map[], PublishOps(staged, [name])).0
    ensures [payload] !in ApplyOps(map[], PublishOps(staged, [name])).0
  {
    assert Alone(FileNode("ok")) == File("ok");
    SpineIsRead([name], FileNode("ok"));
    ReadTreesAreWellNamed(staged);
    CompletedPublishOverlays(map[], staged, [name]);
    assert IsAt(staged, [name], FileNode("ok"));
    forall node ensures !IsAt(staged, [payload], node) {
    }
  }
}

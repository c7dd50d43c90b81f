/** The object-store backend: runs and their event records as blobs of one store, and the driver
    over it. */
module ObjectStore {
  import opened Prelude
  import opened Strings
  import opened Resume
  import opened Registry

  datatype Blob<S, E, R> =
    | ConfigBlob
    | ListBlob(run: string)
    | CheckpointBlob(state: S, step: nat)
    | ResultBlob(result: R)
    | EventBlob(step: nat, event: E)

  class MemoryBlobStore<B> {
    var d: map<string, B>

    constructor ()
      ensures d == map[]
    {
      d := map[];
    }

    method Get(key: string) returns (data: Option<B>)
      ensures data == if key in d then Some(d[key]) else None
    {
      data := if key in d then Some(d[key]) else None;
    }

    method Put(key: string, data: B)
      modifies this
      ensures d == old(d)[key := data]
    {
      d := d[key := data];
    }

    /** The keys under a prefix, in no particular order. */
    method List(prefix: string) returns (keys: set<string>)
      ensures keys == set k | k in d && prefix <= k
    {
      keys := set k | k in d && prefix <= k;
    }

    method Exists(key: string) returns (there: bool)
      ensures there <==> key in d
    {
      there := key in d;
    }
  }

  function Key(base: string, name: string, part: string): string {
    base + "/" + name + "/" + part
  }

  /** A run's name ends in an underscore and twelve hexadecimal digits of its config's hash;
      the part in front is free text. */
  predicate IsRunName(name: string) {
    |name| >= 13 && name[|name| - 13] == '_' && '/' !in name[|name| - 12..]
  }

  /** A run's own keys: the last component is the part. */
  lemma KeysTellApart(base: string, n: string, p: string, m: string, q: string)
    requires '/' !in p && '/' !in q
    ensures Key(base, n, p) == Key(base, m, q) ==> n == m && p == q
  {
    var x, y := Key(base, n, p), Key(base, m, q);
    var i, j := |x| - |p| - 1, |y| - |q| - 1;
    assert x[i] == '/' && y[j] == '/' && x[i + 1..] == p && y[j + 1..] == q;
    if |x| == |y| && i > j {
      assert y[i] == q[i - j - 1] && y[i] in q;
    } else if |x| == |y| && j > i {
      assert x[j] == p[j - i - 1] && x[j] in p;
    }
    assert x[|base| + 1..i] == n && y[|base| + 1..j] == m;
  }

  /** A manifest key ends in a run's hash, so it is no run's own key, whatever the names. */
  lemma ManifestKeysTellApart(base: string, n: string, m: string, part: string)
    requires IsRunName(n) && '/' !in part && |part| < 18
    ensures Key(base, "_manifest", n + ".json") != Key(base, m, part)
  {
    var x, y := Key(base, "_manifest", n + ".json"), Key(base, m, part);
    var i, tail := |y| - |part| - 1, n[|n| - 13..] + ".json";
    HashHasNoSlash(n);
    assert y[i] == '/';
    assert x[|x| - 18..] == tail;
    if |x| == |y| {
      assert x[i] == tail[i - (|x| - 18)] && x[i] in tail;
    }
  }

  lemma HashHasNoSlash(n: string)
    requires IsRunName(n)
    ensures '/' !in n[|n| - 13..] + ".json"
  {
    assert n[|n| - 13..] == [n[|n| - 13]] + n[|n| - 12..];
  }

  type Blobs<S, E, R> = map<string, Blob<S, E, R>>

  /** One run's blobs have their kinds, and only a configured run is listed. */
  ghost predicate ValidRun<S, E, R>(d: Blobs<S, E, R>, base: string, name: string) {
    && (Key(base, "_manifest", name + ".json") in d ==> Key(base, name, "config.json") in d)
    && (Key(base, name, "checkpoint.npz") in d ==> d[Key(base, name, "checkpoint.npz")].CheckpointBlob?)
    && (Key(base, name, "DONE.json") in d ==> d[Key(base, name, "DONE.json")].ResultBlob?)
  }

  /** A run in the same terms as the file registry's; events go to a sink of their own. */
  ghost function RunIn<S, E, R>(d: Blobs<S, E, R>, base: string, name: string): Durable<S, (), R>
    requires ValidRun(d, base, name)
  {
    var c, r := Key(base, name, "checkpoint.npz"), Key(base, name, "DONE.json");
    Durable(Key(base, name, "config.json") in d,
            if Key(base, "_manifest", name + ".json") in d then 1 else 0,
            if c in d then Some((d[c].state, d[c].step)) else None,
            [],
            if r in d then Some(d[r].result) else None)
  }

  /** A blob under one run's key leaves every other run's blobs alone. */
  lemma OthersKept<S, E, R>(d: Blobs<S, E, R>, base: string, name: string, part: string, data: Blob<S, E, R>,
                            other: string)
    requires IsRunName(name) && IsRunName(other) && other != name && ValidRun(d, base, other)
    requires '/' !in part && |part| < 18
    ensures var e := d[Key(base, name, part) := data];
            ValidRun(e, base, other) && RunIn(e, base, other) == RunIn(d, base, other)
  {
    KeysTellApart(base, name, part, other, "config.json");
    KeysTellApart(base, name, part, other, "checkpoint.npz");
    KeysTellApart(base, name, part, other, "DONE.json");
    ManifestKeysTellApart(base, other, name, part);
  }

  lemma OwnKeysDiffer(base: string, name: string)
    requires IsRunName(name)
    ensures Key(base, name, "config.json") != Key(base, name, "checkpoint.npz")
    ensures Key(base, name, "config.json") != Key(base, name, "DONE.json")
    ensures Key(base, name, "checkpoint.npz") != Key(base, name, "DONE.json")
    ensures Key(base, "_manifest", name + ".json") !in
              {Key(base, name, "config.json"), Key(base, name, "checkpoint.npz"), Key(base, name, "DONE.json")}
  {
    KeysTellApart(base, name, "config.json", name, "checkpoint.npz");
    KeysTellApart(base, name, "config.json", name, "DONE.json");
    KeysTellApart(base, name, "checkpoint.npz", name, "DONE.json");
    ManifestKeysTellApart(base, name, name, "config.json");
    ManifestKeysTellApart(base, name, name, "checkpoint.npz");
    ManifestKeysTellApart(base, name, name, "DONE.json");
  }

  lemma ManifestKeysDiffer(base: string, n: string, m: string)
    requires n != m
    ensures Key(base, "_manifest", n + ".json") != Key(base, "_manifest", m + ".json")
  {
    var x, y := Key(base, "_manifest", n + ".json"), Key(base, "_manifest", m + ".json");
    assert x[|x| - |n| - 5..|x| - 5] == n && y[|y| - |m| - 5..|y| - 5] == m;
    assert |x| - |n| == |y| - |m|;
  }

  lemma ListingKeepsOthers<S, E, R>(d: Blobs<S, E, R>, base: string, name: string, data: Blob<S, E, R>, other: string)
    requires IsRunName(name) && IsRunName(other) && other != name && ValidRun(d, base, other)
    ensures var e := d[Key(base, "_manifest", name + ".json") := data];
            ValidRun(e, base, other) && RunIn(e, base, other) == RunIn(d, base, other)
  {
    ManifestKeysTellApart(base, name, other, "config.json");
    ManifestKeysTellApart(base, name, other, "checkpoint.npz");
    ManifestKeysTellApart(base, name, other, "DONE.json");
    ManifestKeysDiffer(base, name, other);
  }

  /** The store's writes are the file registry's effects. */
  lemma StoreRegisters<S, E, R>(d: Blobs<S, E, R>, base: string, name: string)
    requires IsRunName(name) && ValidRun(d, base, name) && Key(base, name, "config.json") !in d
    ensures var c := d[Key(base, name, "config.json") := ConfigBlob];
            var e := c[Key(base, "_manifest", name + ".json") := ListBlob(name)];
            ValidRun(e, base, name) && RunIn(e, base, name) == ApplyAll(RunIn(d, base, name), Registering())
  {
    OwnKeysDiffer(base, name);
    RegisteredBy(RunIn(d, base, name), 2);
    assert Registering<S, (), R>()[..2] == Registering();
  }

  lemma StoreSaves<S, E, R>(d: Blobs<S, E, R>, base: string, name: string, state: S, step: nat)
    requires IsRunName(name) && ValidRun(d, base, name)
    ensures var e := d[Key(base, name, "checkpoint.npz") := CheckpointBlob(state, step)];
            ValidRun(e, base, name) && RunIn(e, base, name) == Apply(RunIn(d, base, name), Effect.Save(state, step))
  {
    OwnKeysDiffer(base, name);
  }

  lemma StoreFinishes<S, E, R>(d: Blobs<S, E, R>, base: string, name: string, result: R)
    requires IsRunName(name) && ValidRun(d, base, name)
    ensures var e := d[Key(base, name, "DONE.json") := ResultBlob(result)];
            ValidRun(e, base, name) && RunIn(e, base, name) == Apply(RunIn(d, base, name), Effect.Finish(result))
  {
    OwnKeysDiffer(base, name);
  }

  // ---- event records

  /** The record files of a run live one level below its own keys. */
  function EventKey(base: string, name: string, file: string): string { Key(base, name + "/events", file) }

  /** A record's file is named after the clock and a unique suffix of 32 hexadecimal digits. */
  predicate IsEventFile(file: string) {
    |file| >= 18 && '/' !in file && file[|file| - 18] != '_'
  }

  lemma EventKeysTellApart(base: string, n: string, p: string, m: string, q: string)
    requires IsEventFile(p) && IsEventFile(q)
    ensures EventKey(base, n, p) == EventKey(base, m, q) ==> n == m && p == q
  {
    KeysTellApart(base, n + "/events", p, m + "/events", q);
    assert (n + "/events")[..|n|] == n && (m + "/events")[..|m|] == m;
    assert |n + "/events"| == |n| + 7 && |m + "/events"| == |m| + 7;
  }

  lemma EventsAreNoRunBlobs(base: string, n: string, file: string, m: string, part: string)
    requires IsEventFile(file) && '/' !in part && |part| < 18
    ensures EventKey(base, n, file) != Key(base, m, part)
  {
    KeysTellApart(base, n + "/events", file, m, part);
  }

  /** Thirteen characters before the extension a manifest key has the underscore of a run name,
      a record a digit of its suffix. */
  lemma EventsAreNoManifestBlobs(base: string, n: string, file: string, m: string)
    requires IsEventFile(file) && IsRunName(m)
    ensures EventKey(base, n, file) != Key(base, "_manifest", m + ".json")
  {
    var x, y := EventKey(base, n, file), Key(base, "_manifest", m + ".json");
    assert x[|x| - 18] == file[|file| - 18];
    assert y[|y| - 18] == (m + ".json")[|m| - 13] == '_';
  }

  /** The same records in two states of the store. */
  ghost predicate SameEvents<S, E, R>(d: Blobs<S, E, R>, e: Blobs<S, E, R>, base: string) {
    forall n, file :: IsEventFile(file) ==>
      && (EventKey(base, n, file) in d <==> EventKey(base, n, file) in e)
      && (EventKey(base, n, file) in d ==> d[EventKey(base, n, file)] == e[EventKey(base, n, file)])
  }

  lemma PutKeepsEvents<S, E, R>(d: Blobs<S, E, R>, base: string, name: string, part: string, data: Blob<S, E, R>)
    requires '/' !in part && |part| < 18
    ensures SameEvents(d, d[Key(base, name, part) := data], base)
  {
    forall n, file | IsEventFile(file) ensures EventKey(base, n, file) != Key(base, name, part) {
      EventsAreNoRunBlobs(base, n, file, name, part);
    }
  }

  lemma ListingKeepsEvents<S, E, R>(d: Blobs<S, E, R>, base: string, name: string, data: Blob<S, E, R>)
    requires IsRunName(name)
    ensures SameEvents(d, d[Key(base, "_manifest", name + ".json") := data], base)
  {
    forall n, file | IsEventFile(file) ensures EventKey(base, n, file) != Key(base, "_manifest", name + ".json") {
      EventsAreNoManifestBlobs(base, n, file, name);
    }
  }

  /** A record leaves every run's own blobs alone. */
  lemma RecordKeepsRuns<S, E, R>(d: Blobs<S, E, R>, base: string, name: string, file: string, data: Blob<S, E, R>,
                                 run: string)
    requires IsEventFile(file) && IsRunName(run) && ValidRun(d, base, run)
    ensures var e := d[EventKey(base, name, file) := data];
            ValidRun(e, base, run) && RunIn(e, base, run) == RunIn(d, base, run)
  {
    EventsAreNoRunBlobs(base, name, file, run, "config.json");
    EventsAreNoRunBlobs(base, name, file, run, "checkpoint.npz");
    EventsAreNoRunBlobs(base, name, file, run, "DONE.json");
    EventsAreNoManifestBlobs(base, name, file, run);
  }

  /** These, in order, are the files of all records a run has in the store. */
  ghost predicate Filed<S, E, R>(d: Blobs<S, E, R>, base: string, name: string, files: seq<string>) {
    && Ascending(files)
    && (forall file :: file in files ==> IsEventFile(file))
    && (forall file :: IsEventFile(file) ==> (EventKey(base, name, file) in d <==> file in files))
    && (forall file :: file in files ==> d[EventKey(base, name, file)].EventBlob?)
  }

  /** The records of those files. */
  ghost function Recorded<S, E, R>(d: Blobs<S, E, R>, base: string, name: string, files: seq<string>): seq<(nat, E)>
    requires forall file :: file in files ==>
               EventKey(base, name, file) in d && d[EventKey(base, name, file)].EventBlob?
  {
    if files == [] then []
    else
      var blob := d[EventKey(base, name, files[|files| - 1])];
      Recorded(d, base, name, files[..|files| - 1]) + [(blob.step, blob.event)]
  }

  lemma {:induction false} RecordedKept<S, E, R>(d: Blobs<S, E, R>, e: Blobs<S, E, R>, base: string, name: string,
                                                 files: seq<string>)
    requires forall file :: file in files ==>
               && EventKey(base, name, file) in d && d[EventKey(base, name, file)].EventBlob?
               && EventKey(base, name, file) in e && e[EventKey(base, name, file)] == d[EventKey(base, name, file)]
    ensures Recorded(e, base, name, files) == Recorded(d, base, name, files)
  {
    if files != [] {
      RecordedKept(d, e, base, name, files[..|files| - 1]);
    }
  }

  lemma LogKept<S, E, R>(d: Blobs<S, E, R>, e: Blobs<S, E, R>, base: string, name: string, files: seq<string>)
    requires SameEvents(d, e, base) && Filed(d, base, name, files)
    ensures Filed(e, base, name, files) && Recorded(e, base, name, files) == Recorded(d, base, name, files)
  {
    RecordedKept(d, e, base, name, files);
  }

  /** A record under a file that sorts last is the run's next event, and no other run's. */
  lemma RecordIsAppended<S, E, R>(d: Blobs<S, E, R>, base: string, name: string, files: seq<string>, file: string,
                                  step: nat, event: E)
    requires Filed(d, base, name, files) && IsEventFile(file) && forall f :: f in files ==> Before(f, file)
    ensures var e := d[EventKey(base, name, file) := EventBlob(step, event)];
            && Filed(e, base, name, files + [file])
            && Recorded(e, base, name, files + [file]) == Recorded(d, base, name, files) + [(step, event)]
  {
    var e := d[EventKey(base, name, file) := EventBlob(step, event)];
    BeforeIsStrict(file, file);
    forall f | IsEventFile(f)
      ensures EventKey(base, name, f) == EventKey(base, name, file) ==> f == file
    {
      EventKeysTellApart(base, name, f, name, file);
    }
    RecordedKept(d, e, base, name, files);
    assert (files + [file])[..|files|] == files;
  }

  lemma RecordKeepsOthers<S, E, R>(d: Blobs<S, E, R>, base: string, name: string, file: string, data: Blob<S, E, R>,
                                   other: string, files: seq<string>)
    requires Filed(d, base, other, files) && IsEventFile(file) && other != name
    ensures var e := d[EventKey(base, name, file) := data];
            Filed(e, base, other, files) && Recorded(e, base, other, files) == Recorded(d, base, other, files)
  {
    forall f | IsEventFile(f) ensures EventKey(base, other, f) != EventKey(base, name, file) {
      EventKeysTellApart(base, other, f, name, file);
    }
    RecordedKept(d, d[EventKey(base, name, file) := data], base, other, files);
  }

  class ObjectStoreRunRegistry<S, E, R> {
    const store: MemoryBlobStore<Blob<S, E, R>>
    const base: string

    constructor (store: MemoryBlobStore<Blob<S, E, R>>, base: string)
      ensures this.store == store && this.base == base
    {
      this.store, this.base := store, base;
    }

    ghost predicate Valid()
      reads this, store
    {
      forall name :: IsRunName(name) ==> ValidRun(store.d, base, name)
    }

    ghost function View(name: string): Durable<S, (), R>
      reads this, store
      requires Valid() && IsRunName(name)
    {
      RunIn(store.d, base, name)
    }

    method Register(name: string)
      requires Valid() && IsRunName(name)
      modifies store
      ensures Valid()
      ensures View(name) == ApplyAll(old(View(name)), if old(View(name)).configured then [] else Registering())
      ensures forall other :: IsRunName(other) && other != name ==> View(other) == old(View(other))
      ensures SameEvents(old(store.d), store.d, base)
    {
      ghost var d := store.d;
      var configured := store.Exists(Key(base, name, "config.json"));
      if !configured {
        store.Put(Key(base, name, "config.json"), ConfigBlob);
        ghost var c := store.d;
        store.Put(Key(base, "_manifest", name + ".json"), ListBlob(name));
        StoreRegisters(d, base, name);
        PutKeepsEvents(d, base, name, "config.json", ConfigBlob);
        ListingKeepsEvents(c, base, name, ListBlob(name));
        forall other | IsRunName(other) && other != name
          ensures ValidRun(store.d, base, other) && RunIn(store.d, base, other) == RunIn(d, base, other)
        {
          OthersKept(d, base, name, "config.json", ConfigBlob, other);
          ListingKeepsOthers(c, base, name, ListBlob(name), other);
        }
      }
    }

    method IsComplete(name: string) returns (complete: bool)
      requires Valid() && IsRunName(name)
      ensures complete <==> View(name).done.Some?
    {
      complete := store.Exists(Key(base, name, "DONE.json"));
    }

    method Load(name: string) returns (resume: Option<(S, nat)>)
      requires Valid() && IsRunName(name)
      ensures resume == View(name).checkpoint
    {
      var data := store.Get(Key(base, name, "checkpoint.npz"));
      assert ValidRun(store.d, base, name);
      resume := if data.None? then None else Some((data.value.state, data.value.step));
    }

    method Save(name: string, state: S, step: nat)
      requires Valid() && IsRunName(name)
      modifies store
      ensures Valid()
      ensures View(name) == Apply(old(View(name)), Effect.Save(state, step))
      ensures forall other :: IsRunName(other) && other != name ==> View(other) == old(View(other))
      ensures SameEvents(old(store.d), store.d, base)
    {
      ghost var d := store.d;
      store.Put(Key(base, name, "checkpoint.npz"), CheckpointBlob(state, step));
      StoreSaves(d, base, name, state, step);
      PutKeepsEvents(d, base, name, "checkpoint.npz", CheckpointBlob(state, step));
      forall other | IsRunName(other) && other != name
        ensures ValidRun(store.d, base, other) && RunIn(store.d, base, other) == RunIn(d, base, other)
      {
        OthersKept(d, base, name, "checkpoint.npz", CheckpointBlob(state, step), other);
      }
    }

    method Finish(name: string, result: R)
      requires Valid() && IsRunName(name)
      modifies store
      ensures Valid()
      ensures View(name) == Apply(old(View(name)), Effect.Finish(result))
      ensures forall other :: IsRunName(other) && other != name ==> View(other) == old(View(other))
      ensures SameEvents(old(store.d), store.d, base)
    {
      ghost var d := store.d;
      store.Put(Key(base, name, "DONE.json"), ResultBlob(result));
      StoreFinishes(d, base, name, result);
      PutKeepsEvents(d, base, name, "DONE.json", ResultBlob(result));
      forall other | IsRunName(other) && other != name
        ensures ValidRun(store.d, base, other) && RunIn(store.d, base, other) == RunIn(d, base, other)
      {
        OthersKept(d, base, name, "DONE.json", ResultBlob(result), other);
      }
    }
  }

  function FilesIn(files: map<string, seq<string>>, name: string): seq<string> {
    if name in files then files[name] else []
  }

  ghost predicate AllFiled<S, E, R>(d: Blobs<S, E, R>, base: string, files: map<string, seq<string>>) {
    forall name :: Filed(d, base, name, FilesIn(files, name))
  }

  ghost function LogIn<S, E, R>(d: Blobs<S, E, R>, base: string, files: map<string, seq<string>>, name: string):
      seq<(nat, E)>
    requires AllFiled(d, base, files)
  {
    assert Filed(d, base, name, FilesIn(files, name));
    Recorded(d, base, name, FilesIn(files, name))
  }

  /** One run's files and records are so. */
  ghost predicate HasLog<S, E, R>(d: Blobs<S, E, R>, base: string, name: string, files: seq<string>,
                                  log: seq<(nat, E)>)
  {
    Filed(d, base, name, files) && Recorded(d, base, name, files) == log
  }

  lemma EmitOwn<S, E, R>(d: Blobs<S, E, R>, base: string, files: seq<string>, name: string, file: string,
                         step: nat, event: E, log: seq<(nat, E)>)
    requires HasLog(d, base, name, files, log) && IsEventFile(file) && forall f :: f in files ==> Before(f, file)
    ensures HasLog(d[EventKey(base, name, file) := EventBlob(step, event)], base, name, files + [file],
                   log + [(step, event)])
  {
    RecordIsAppended(d, base, name, files, file, step, event);
  }

  lemma EmitOther<S, E, R>(d: Blobs<S, E, R>, base: string, files: seq<string>, name: string, file: string,
                           data: Blob<S, E, R>, other: string, log: seq<(nat, E)>)
    requires HasLog(d, base, other, files, log) && IsEventFile(file) && other != name
    ensures HasLog(d[EventKey(base, name, file) := data], base, other, files, log)
  {
    RecordKeepsOthers(d, base, name, file, data, other, files);
  }

  lemma EmitEffect<S, E, R>(d: Blobs<S, E, R>, base: string, files: map<string, seq<string>>, name: string,
                            file: string,
                            step: nat, event: E)
    requires AllFiled(d, base, files) && IsEventFile(file) && forall f :: f in FilesIn(files, name) ==> Before(f, file)
    ensures var e := d[EventKey(base, name, file) := EventBlob(step, event)];
            var g := files[name := FilesIn(files, name) + [file]];
            && AllFiled(e, base, g) && LogIn(e, base, g, name) == LogIn(d, base, files, name) + [(step, event)]
            && forall other :: other != name ==> LogIn(e, base, g, other) == LogIn(d, base, files, other)
  {
    var e := d[EventKey(base, name, file) := EventBlob(step, event)];
    var g := files[name := FilesIn(files, name) + [file]];
    forall n
      ensures HasLog(e, base, n, FilesIn(g, n), LogIn(d, base, files, n) + if n == name then [(step, event)] else [])
    {
      assert Filed(d, base, n, FilesIn(files, n));
      if n == name {
        EmitOwn(d, base, FilesIn(files, n), n, file, step, event, LogIn(d, base, files, n));
      } else {
        EmitOther(d, base, FilesIn(files, n), name, file, EventBlob(step, event), n, LogIn(d, base, files, n));
        assert LogIn(d, base, files, n) + [] == LogIn(d, base, files, n);
      }
    }
  }

  lemma LogsKept<S, E, R>(d: Blobs<S, E, R>, e: Blobs<S, E, R>, base: string, files: map<string, seq<string>>)
    requires SameEvents(d, e, base) && AllFiled(d, base, files)
    ensures AllFiled(e, base, files) && forall name :: LogIn(e, base, files, name) == LogIn(d, base, files, name)
  {
    forall name
      ensures Filed(d, base, name, FilesIn(files, name)) && Filed(e, base, name, FilesIn(files, name))
      ensures Recorded(e, base, name, FilesIn(files, name)) == Recorded(d, base, name, FilesIn(files, name))
    {
      assert Filed(d, base, name, FilesIn(files, name));
      LogKept(d, e, base, name, FilesIn(files, name));
    }
  }

  /** One blob per emitted record, in the same store as the runs. */
  class ObjectStoreEventSink<S, E, R> {
    const store: MemoryBlobStore<Blob<S, E, R>>
    const base: string
    ghost var files: map<string, seq<string>> // each run's record files, in the order of emission

    constructor (store: MemoryBlobStore<Blob<S, E, R>>, base: string)
      requires forall name, file :: IsEventFile(file) ==> EventKey(base, name, file) !in store.d
      ensures this.store == store && this.base == base
      ensures Valid() && forall name :: Log(name) == []
    {
      this.store, this.base, files := store, base, map[];
    }

    ghost function FilesOf(name: string): seq<string>
      reads this
    {
      FilesIn(files, name)
    }

    ghost predicate Valid()
      reads this, store
    {
      AllFiled(store.d, base, files)
    }

    ghost function Log(name: string): seq<(nat, E)>
      reads this, store
      requires Valid()
    {
      LogIn(store.d, base, files, name)
    }

    /** `file` is named after the clock, which has moved on since the run's earlier records. */
    method Emit(name: string, file: string, step: nat, event: E)
      requires Valid() && IsEventFile(file) && forall f :: f in FilesOf(name) ==> Before(f, file)
      modifies this, store
      ensures Valid() && FilesOf(name) == old(FilesOf(name)) + [file]
      ensures Log(name) == old(Log(name)) + [(step, event)]
      ensures forall other :: other != name ==> FilesOf(other) == old(FilesOf(other)) && Log(other) == old(Log(other))
      ensures store.d == old(store.d)[EventKey(base, name, file) := EventBlob(step, event)]
    {
      EmitEffect(store.d, base, files, name, file, step, event);
      store.Put(EventKey(base, name, file), EventBlob(step, event));
      files := files[name := FilesOf(name) + [file]];
    }

    /** The streamed ledger of a run: the blobs under its prefix, read in the order of their keys.
        They are the run's records in the order of emission, as long as nothing else lies there. */
    method Events(name: string) returns (events: seq<Blob<S, E, R>>)
      requires Valid()
      ensures OnlyRecordsUnder(store.d, base, name) ==>
                && |events| == |Log(name)|
                && forall i :: 0 <= i < |events| ==> events[i] == EventBlob(Log(name)[i].0, Log(name)[i].1)
    {
      var rest := store.List(EventPrefix(base, name));
      ghost var keys, read := rest, [];
      events := [];
      while rest != {}
        invariant rest <= keys && Ascending(read) && forall k :: k in keys <==> k in rest || k in read
        invariant forall k, j :: k in read && j in rest ==> Before(k, j)
        invariant |events| == |read|
        invariant forall i :: 0 <= i < |read| ==> read[i] in store.d && events[i] == store.d[read[i]]
        decreases |rest|
      {
        var k := Least(rest);
        BeforeIsStrict(k, k);
        var blob := store.Get(k);
        events, rest := events + [blob.value], rest - {k};
        read := read + [k];
      }
      if OnlyRecordsUnder(store.d, base, name) {
        assert Filed(store.d, base, name, FilesOf(name));
        ListedInOrder(store.d, base, name, FilesOf(name), keys, read);
        ReadInOrder(store.d, base, name, FilesOf(name), read);
      }
    }
  }

  function EventPrefix(base: string, name: string): string { base + "/" + name + "/events/" }

  /** Everything under the run's prefix is a record of that run: no other run's name goes on
      from there. */
  ghost predicate OnlyRecordsUnder<S, E, R>(d: Blobs<S, E, R>, base: string, name: string) {
    forall k :: k in d && EventPrefix(base, name) <= k ==>
      exists file :: IsEventFile(file) && k == EventKey(base, name, file)
  }

  method Least(keys: set<string>) returns (least: string)
    requires keys != {}
    ensures least in keys && forall k :: k in keys && k != least ==> Before(least, k)
  {
    least :| least in keys;
    var rest := keys - {least};
    while rest != {}
      invariant least in keys && rest <= keys
      invariant forall k :: k in keys - rest && k != least ==> Before(least, k)
      decreases |rest|
    {
      var k :| k in rest;
      BeforeIsTotal(k, least);
      if Before(k, least) {
        forall j | j in keys - rest && j != least ensures Before(k, j) {
          BeforeIsTransitive(k, least, j);
        }
        least := k;
      }
      rest := rest - {k};
    }
  }

  function KeysOf(base: string, name: string, files: seq<string>): seq<string> {
    seq(|files|, i requires 0 <= i < |files| => EventKey(base, name, files[i]))
  }

  /** The sorted keys are those of the files in the order of emission. */
  lemma ListedInOrder<S, E, R>(d: Blobs<S, E, R>, base: string, name: string, files: seq<string>, keys: set<string>,
                               read: seq<string>)
    requires Filed(d, base, name, files) && OnlyRecordsUnder(d, base, name)
    requires keys == (set k | k in d && EventPrefix(base, name) <= k)
    requires Ascending(read) && forall k :: k in keys <==> k in read
    ensures read == KeysOf(base, name, files)
  {
    var mine := KeysOf(base, name, files);
    forall i, j | 0 <= i < j < |mine| ensures Before(mine[i], mine[j]) {
      BeforeUnderPrefix(EventPrefix(base, name), files[i], files[j]);
      KeyUnderPrefix(base, name, files[i]);
      KeyUnderPrefix(base, name, files[j]);
    }
    forall k ensures k in read <==> k in mine {
      if k in read {
        var file :| IsEventFile(file) && k == EventKey(base, name, file);
        var i :| 0 <= i < |files| && files[i] == file;
        assert mine[i] == k;
      }
      if k in mine {
        var i :| 0 <= i < |mine| && mine[i] == k;
        KeyUnderPrefix(base, name, files[i]);
      }
    }
    OneOrder(read, mine);
  }

  lemma KeyUnderPrefix(base: string, name: string, file: string)
    ensures EventKey(base, name, file) == EventPrefix(base, name) + file
  {
  }

  lemma {:induction false} ReadInOrder<S, E, R>(d: Blobs<S, E, R>, base: string, name: string, files: seq<string>,
                                                read: seq<string>)
    requires forall file :: file in files ==>
               EventKey(base, name, file) in d && d[EventKey(base, name, file)].EventBlob?
    requires read == KeysOf(base, name, files)
    ensures var log := Recorded(d, base, name, files);
            |log| == |read| && forall i :: 0 <= i < |read| ==> d[read[i]] == EventBlob(log[i].0, log[i].1)
  {
    if files != [] {
      var n := |files| - 1;
      ReadInOrder(d, base, name, files[..n], read[..n]);
    }
  }

  // ---- one attempt over the store

  /** A registry's run together with the events its sink holds. */
  function WithEvents<S, E, R>(d: Durable<S, (), R>, events: seq<(nat, E)>): Durable<S, E, R> {
    Durable(d.configured, d.listed, d.checkpoint, events, d.done)
  }

  /** Registry and sink over one store and base. */
  ghost predicate Together<S, E, R>(runs: ObjectStoreRunRegistry<S, E, R>, sink: ObjectStoreEventSink<S, E, R>)
    reads runs, sink, runs.store, sink.store
  {
    runs.store == sink.store && runs.base == sink.base && runs.Valid() && sink.Valid()
  }

  ghost function StoredRun<S, E, R>(runs: ObjectStoreRunRegistry<S, E, R>, sink: ObjectStoreEventSink<S, E, R>,
                                    name: string): Durable<S, E, R>
    requires Together(runs, sink) && IsRunName(name)
    reads runs, sink, runs.store, sink.store
  {
    WithEvents(runs.View(name), sink.Log(name))
  }

  /** The clock never repeats a file name and only moves on. */
  ghost predicate Clock(file: nat -> string) {
    && (forall k: nat :: IsEventFile(file(k)))
    && (forall j: nat, k: nat :: j < k ==> Before(file(j), file(k)))
  }

  ghost predicate IsLater(files: seq<string>, file: nat -> string, from: nat) {
    forall f, k: nat :: f in files && from <= k ==> Before(f, file(k))
  }

  /** The registry's own steps, seen beside the records. */
  method RegisterInStore<S, E, R>(name: string, runs: ObjectStoreRunRegistry<S, E, R>,
                                  sink: ObjectStoreEventSink<S, E, R>)
    requires Together(runs, sink) && IsRunName(name)
    modifies runs.store
    ensures Together(runs, sink)
    ensures StoredRun(runs, sink, name)
         == ApplyAll(old(StoredRun(runs, sink, name)), if old(runs.View(name)).configured then [] else Registering())
    ensures forall other :: IsRunName(other) && other != name ==>
              StoredRun(runs, sink, other) == old(StoredRun(runs, sink, other))
  {
    ghost var d := runs.store.d;
    RegisteredBy(StoredRun(runs, sink, name), 2);
    RegisteredBy(runs.View(name), 2);
    assert Registering<S, E, R>()[..2] == Registering() && Registering<S, (), R>()[..2] == Registering();
    runs.Register(name);
    LogsKept(d, sink.store.d, sink.base, sink.files);
  }

  method FinishInStore<S, E, R>(name: string, runs: ObjectStoreRunRegistry<S, E, R>,
                                sink: ObjectStoreEventSink<S, E, R>, result: R)
    requires Together(runs, sink) && IsRunName(name)
    modifies runs.store
    ensures Together(runs, sink)
    ensures StoredRun(runs, sink, name) == Apply(old(StoredRun(runs, sink, name)), Effect.Finish(result))
    ensures forall other :: IsRunName(other) && other != name ==>
              StoredRun(runs, sink, other) == old(StoredRun(runs, sink, other))
  {
    ghost var d := runs.store.d;
    runs.Finish(name, result);
    LogsKept(d, sink.store.d, sink.base, sink.files);
  }

  /** The same attempt over the object store, runs and records side by side in one store: the run
      it leaves is the one the file registry's attempt would leave, so what is proved about
      resuming holds over either backend. `file(k)` is the name the clock gives step k's record. */
  method ExecuteInStore<S, E, R>(f: RunFn<S, E, R>, name: string, runs: ObjectStoreRunRegistry<S, E, R>,
                                 sink: ObjectStoreEventSink<S, E, R>, file: nat -> string) returns (result: Option<R>)
    requires Together(runs, sink) && IsRunName(name) && Clock(file) && IsLater(sink.FilesOf(name), file, 0)
    modifies runs.store, sink
    ensures Together(runs, sink)
    ensures StoredRun(runs, sink, name) == Attempt(f, old(StoredRun(runs, sink, name)))
    ensures result == if old(runs.View(name)).done.Some? then None else runs.View(name).done
    ensures forall other :: IsRunName(other) && other != name ==>
              StoredRun(runs, sink, other) == old(StoredRun(runs, sink, other))
  {
    ghost var before := StoredRun(runs, sink, name);
    ghost var head := if before.configured then [] else Registering();
    ghost var tail := if before.done.Some? then [] else StepEffects(f, StartState(f, before), StartStep(before));
    ApplyAppend(before, head, tail);
    RegisteredBy(before, 2);
    assert Registering<S, E, R>()[..2] == Registering();
    RegisterInStore(name, runs, sink);
    var complete := runs.IsComplete(name);
    if complete {
      return None;
    }
    var resume := runs.Load(name);
    var s := if resume.None? then f.init else resume.value.0;
    var k := if resume.None? then 1 else resume.value.1 + 1;
    s := RunStepsInStore(f, name, runs, sink, file, s, k);
    result := Some(f.result(s));
    FinishInStore(name, runs, sink, f.result(s));
  }

  method RunStepsInStore<S, E, R>(f: RunFn<S, E, R>, name: string, runs: ObjectStoreRunRegistry<S, E, R>,
                                  sink: ObjectStoreEventSink<S, E, R>, file: nat -> string, start: S, first: nat)
    returns (s: S)
    requires Together(runs, sink) && IsRunName(name) && Clock(file) && IsLater(sink.FilesOf(name), file, first)
    modifies runs.store, sink
    ensures Together(runs, sink)
    ensures ApplyAll(old(StoredRun(runs, sink, name)), StepEffects(f, start, first))
         == Apply(StoredRun(runs, sink, name), Finish(f.result(s)))
    ensures forall other :: IsRunName(other) && other != name ==>
              StoredRun(runs, sink, other) == old(StoredRun(runs, sink, other))
  {
    ghost var goal := ApplyAll(StoredRun(runs, sink, name), StepEffects(f, start, first));
    var k := first;
    s := start;
    while k <= f.steps
      invariant Together(runs, sink) && IsLater(sink.FilesOf(name), file, k)
      invariant goal == ApplyAll(StoredRun(runs, sink, name), StepEffects(f, s, k))
      invariant forall other :: IsRunName(other) && other != name ==>
                  StoredRun(runs, sink, other) == old(StoredRun(runs, sink, other))
      decreases f.steps + 1 - k
    {
      OneStep(f, StoredRun(runs, sink, name), s, k);
      var t := f.next(s, k);
      SaveAndEmitInStore(name, runs, sink, file, t, k, f.event(t, k));
      s, k := t, k + 1;
    }
    NoStepsLeft(f, StoredRun(runs, sink, name), s, k);
  }

  method SaveAndEmitInStore<S, E, R>(name: string, runs: ObjectStoreRunRegistry<S, E, R>,
                                     sink: ObjectStoreEventSink<S, E, R>, file: nat -> string, t: S, k: nat, event: E)
    requires Together(runs, sink) && IsRunName(name) && Clock(file) && IsLater(sink.FilesOf(name), file, k)
    modifies runs.store, sink
    ensures Together(runs, sink) && IsLater(sink.FilesOf(name), file, k + 1)
    ensures StoredRun(runs, sink, name)
         == Apply(Apply(old(StoredRun(runs, sink, name)), Effect.Save(t, k)), Effect.Emit(k, event))
    ensures forall other :: IsRunName(other) && other != name ==>
              StoredRun(runs, sink, other) == old(StoredRun(runs, sink, other))
  {
    SaveInStore(name, runs, sink, t, k);
    EmitInStore(name, runs, sink, file(k), k, event);
  }

  method SaveInStore<S, E, R>(name: string, runs: ObjectStoreRunRegistry<S, E, R>,
                              sink: ObjectStoreEventSink<S, E, R>, t: S, k: nat)
    requires Together(runs, sink) && IsRunName(name)
    modifies runs.store
    ensures Together(runs, sink)
    ensures StoredRun(runs, sink, name) == Apply(old(StoredRun(runs, sink, name)), Effect.Save(t, k))
    ensures forall other :: IsRunName(other) && other != name ==>
              StoredRun(runs, sink, other) == old(StoredRun(runs, sink, other))
  {
    ghost var d := runs.store.d;
    runs.Save(name, t, k);
    LogsKept(d, sink.store.d, sink.base, sink.files);
  }

  method EmitInStore<S, E, R>(name: string, runs: ObjectStoreRunRegistry<S, E, R>,
                              sink: ObjectStoreEventSink<S, E, R>, file: string, k: nat, event: E)
    requires Together(runs, sink) && IsRunName(name)
    requires IsEventFile(file) && forall f :: f in sink.FilesOf(name) ==> Before(f, file)
    modifies runs.store, sink
    ensures Together(runs, sink) && sink.FilesOf(name) == old(sink.FilesOf(name)) + [file]
    ensures StoredRun(runs, sink, name) == Apply(old(StoredRun(runs, sink, name)), Effect.Emit(k, event))
    ensures forall other :: IsRunName(other) && other != name ==>
              StoredRun(runs, sink, other) == old(StoredRun(runs, sink, other))
  {
    ghost var d := runs.store.d;
    sink.Emit(name, file, k, event);
    forall run | IsRunName(run)
      ensures ValidRun(runs.store.d, runs.base, run)
      ensures RunIn(runs.store.d, runs.base, run) == RunIn(d, runs.base, run)
    {
      RecordKeepsRuns(d, runs.base, name, file, EventBlob(k, event), run);
    }
  }
}

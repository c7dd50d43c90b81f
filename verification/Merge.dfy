/** Merging the executors' slices into one harvest, in whatever order they complete. */
module Merge {
  import opened Prelude
  import opened Split

  /** A result record, under its run name and annotated with its producer. */
  datatype Record<V> = Record(run: string, provider: string, value: V)

  /** One executor's slice: its records, none when it failed. */
  datatype ProviderRun<V> = ProviderRun(provider: string, share: nat, records: seq<Record<V>>, error: Option<string>)

  datatype Harvest<V> = Harvest(results: map<string, Record<V>>, duplicates: map<string, seq<string>>)

  /** What an executor does with its slice: raise, or return named values. */
  datatype Outcome<V> = Raised(message: string) | Returned(values: seq<(string, V)>)

  /** A failing executor yields its error instead of stopping the others. */
  function Isolate<V>(name: string, share: nat, outcome: Outcome<V>): ProviderRun<V> {
    match outcome
    case Raised(message) => ProviderRun(name, share, [], Some(message))
    case Returned(values) => ProviderRun(name, share, Annotate(name, values), None)
  }

  function Annotate<V>(name: string, values: seq<(string, V)>): seq<Record<V>> {
    seq(|values|, i requires 0 <= i < |values| => Record(values[i].0, name, values[i].1))
  }

  /** All records in the order they were merged. */
  function Flat<V>(runs: seq<ProviderRun<V>>): seq<Record<V>> {
    if runs == [] then [] else Flat(runs[..|runs| - 1]) + runs[|runs| - 1].records
  }

  /** Who produced a run, in order. */
  function Producers<V>(recs: seq<Record<V>>, run: string): seq<string> {
    if recs == [] then []
    else
      var last := recs[|recs| - 1];
      Producers(recs[..|recs| - 1], run) + if last.run == run then [last.provider] else []
  }

  /** The record merged last for a run. */
  function LastRecord<V>(recs: seq<Record<V>>, run: string): Option<Record<V>> {
    if recs == [] then None
    else if recs[|recs| - 1].run == run then Some(recs[|recs| - 1])
    else LastRecord(recs[..|recs| - 1], run)
  }

  /** The harvest of a list of records: the last record of each run, and for every run with
      more than one record all its producers in order. */
  ghost predicate Merged<V>(h: Harvest<V>, recs: seq<Record<V>>) {
    forall run :: MergedAt(h, recs, run)
  }

  ghost predicate MergedAt<V>(h: Harvest<V>, recs: seq<Record<V>>, run: string) {
    && (run in h.results <==> Producers(recs, run) != [])
    && (run in h.results ==> LastRecord(recs, run) == Some(h.results[run]))
    && (run in h.duplicates <==> |Producers(recs, run)| > 1)
    && (run in h.duplicates ==> h.duplicates[run] == Producers(recs, run))
  }

  lemma {:induction false} OneProducer<V>(recs: seq<Record<V>>, run: string)
    ensures Producers(recs, run) != [] ==>
              LastRecord(recs, run).Some? && LastRecord(recs, run).value.run == run
              && Producers(recs, run)[|Producers(recs, run)| - 1] == LastRecord(recs, run).value.provider
    ensures Producers(recs, run) == [] ==> LastRecord(recs, run).None?
  {
    if recs != [] {
      OneProducer(recs[..|recs| - 1], run);
    }
  }

  method AddRecord<V>(h: Harvest<V>, r: Record<V>, ghost before: seq<Record<V>>) returns (next: Harvest<V>)
    requires Merged(h, before)
    ensures Merged(next, before + [r])
  {
    var results, duplicates := h.results, h.duplicates;
    if r.run in results {
      var known := if r.run in duplicates then duplicates[r.run] else [results[r.run].provider];
      duplicates := duplicates[r.run := known + [r.provider]];
    }
    results := results[r.run := r];
    next := Harvest(results, duplicates);
    OneProducer(before, r.run);
    assert (before + [r])[..|before|] == before;
    forall run ensures MergedAt(next, before + [r], run) {
      assert MergedAt(h, before, run);
    }
  }

  /** Drains the executors' slices as they arrive. */
  method RunMulti<V>(arrivals: seq<ProviderRun<V>>) returns (h: Harvest<V>)
    ensures Merged(h, Flat(arrivals))
  {
    h := Harvest(map[], map[]);
    for i := 0 to |arrivals|
      invariant Merged(h, Flat(arrivals[..i]))
    {
      assert arrivals[..i + 1][..i] == arrivals[..i];
      var recs := arrivals[i].records;
      ghost var before := Flat(arrivals[..i]);
      assert recs[..0] == [] && before + [] == before;
      for j := 0 to |recs|
        invariant Merged(h, before + recs[..j])
      {
        assert before + recs[..j + 1] == (before + recs[..j]) + [recs[j]];
        h := AddRecord(h, recs[j], before + recs[..j]);
      }
      assert recs[..|recs|] == recs;
    }
    assert arrivals[..|arrivals|] == arrivals;
  }

  // ---- completion order

  lemma {:induction false} FlatSplits<V>(a: seq<ProviderRun<V>>, b: seq<ProviderRun<V>>)
    ensures Flat(a + b) == Flat(a) + Flat(b)
  {
    if b == [] {
      assert a + b == a;
    } else {
      var n := |b| - 1;
      FlatSplits(a, b[..n]);
      assert Flat(a + b) == Flat(a + b[..n]) + b[n].records by {
        assert (a + b)[..|a + b| - 1] == a + b[..n];
      }
    }
  }

  /** Finds the last element of one list in a rearrangement of it. */
  lemma PullOut<T>(p: seq<T>, q: seq<T>) returns (a: seq<T>, b: seq<T>)
    requires multiset(p) == multiset(q) && p != []
    ensures q == a + [p[|p| - 1]] + b && multiset(p[..|p| - 1]) == multiset(a + b)
  {
    var n := |p| - 1;
    TakenOut(p, n);
    assert p[..n] + p[n + 1..] == p[..n];
    assert p[n] in multiset(q);
    var i :| 0 <= i < |q| && q[i] == p[n];
    a, b := q[..i], q[i + 1..];
    TakenOut(q, i);
  }

  lemma TakenOut<T>(q: seq<T>, i: nat)
    requires i < |q|
    ensures q == q[..i] + [q[i]] + q[i + 1..]
    ensures multiset(q[..i] + q[i + 1..]) == multiset(q) - multiset{q[i]}
  {
    var a, b := q[..i], q[i + 1..];
    assert q == a + [q[i]] + b;
    assert multiset(q) == multiset(a) + multiset{q[i]} + multiset(b);
  }

  lemma EmptyRearranged<T>(q: seq<T>)
    requires multiset(q) == multiset{}
    ensures q == []
  {
    assert |q| == |multiset(q)|;
  }

  /** The same slices in another order bring the same records. */
  lemma {:induction false} SameSlicesSameRecords<V>(p: seq<ProviderRun<V>>, q: seq<ProviderRun<V>>)
    requires multiset(p) == multiset(q)
    ensures multiset(Flat(p)) == multiset(Flat(q))
    decreases |p|
  {
    if p == [] {
      EmptyRearranged(q);
    } else {
      var n := |p| - 1;
      var a, b := PullOut(p, q);
      SameSlicesSameRecords(p[..n], a + b);
      FlatSplits(a, b);
      FlatSplits(a + [p[n]], b);
      assert (a + [p[n]])[..|a|] == a;
    }
  }

  /** How many records a run has. */
  function Copies<V(==)>(recs: seq<Record<V>>, run: string): nat { |Producers(recs, run)| }

  lemma {:induction false} ProducersSplit<V>(a: seq<Record<V>>, b: seq<Record<V>>, run: string)
    ensures Producers(a + b, run) == Producers(a, run) + Producers(b, run)
  {
    if b == [] {
      assert a + b == a;
    } else {
      var n := |b| - 1;
      ProducersSplit(a, b[..n], run);
      assert (a + b)[..|a + b| - 1] == a + b[..n];
    }
  }

  lemma {:induction false} ProducersOfSameRecords<V>(r: seq<Record<V>>, s: seq<Record<V>>, run: string)
    requires multiset(r) == multiset(s)
    ensures multiset(Producers(r, run)) == multiset(Producers(s, run)) && Copies(r, run) == Copies(s, run)
    decreases |r|
  {
    if r == [] {
      EmptyRearranged(s);
    } else {
      var n := |r| - 1;
      var a, b := PullOut(r, s);
      ProducersOfSameRecords(r[..n], a + b, run);
      ProducersSplit(a, b, run);
      ProducersSplit(a + [r[n]], b, run);
      assert (a + [r[n]])[..|a|] == a;
      assert |multiset(Producers(r, run))| == |multiset(Producers(s, run))|;
    }
  }

  lemma {:induction false} LastIsARecord<V>(recs: seq<Record<V>>, run: string)
    ensures LastRecord(recs, run).Some? ==>
              LastRecord(recs, run).value in recs && LastRecord(recs, run).value.run == run
  {
    if recs != [] && recs[|recs| - 1].run != run {
      LastIsARecord(recs[..|recs| - 1], run);
    }
  }

  /** The record kept for a run is the one no later record of that run follows. */
  lemma {:induction false} LastHasNoLater<V>(recs: seq<Record<V>>, run: string, i: nat)
    requires i < |recs| && recs[i].run == run && forall j :: i < j < |recs| ==> recs[j].run != run
    ensures LastRecord(recs, run) == Some(recs[i])
  {
    if i < |recs| - 1 {
      LastHasNoLater(recs[..|recs| - 1], run, i);
    }
  }

  /** A slice names its executor throughout: an error and no records if it raised, otherwise its
      values in order. */
  lemma IsolateTells<V>(name: string, share: nat, outcome: Outcome<V>)
    ensures var slice := Isolate(name, share, outcome);
            && slice.provider == name && slice.share == share
            && (outcome.Raised? ==> slice.error == Some(outcome.message) && slice.records == [])
            && (outcome.Returned? ==>
                  && slice.error.None? && |slice.records| == |outcome.values|
                  && forall i :: 0 <= i < |slice.records| ==>
                       slice.records[i] == Record(outcome.values[i].0, name, outcome.values[i].1))
  {
  }

  lemma {:induction false} RecordIsProduced<V>(recs: seq<Record<V>>, r: Record<V>)
    requires r in recs
    ensures Producers(recs, r.run) != []
  {
    var n := |recs| - 1;
    if recs[n] != r {
      assert r in recs[..n];
      RecordIsProduced(recs[..n], r);
    }
  }

  /** A run with one record: that record is the last one. */
  lemma {:induction false} OnlyRecordIsLast<V>(recs: seq<Record<V>>, r: Record<V>)
    requires r in recs && Copies(recs, r.run) <= 1
    ensures LastRecord(recs, r.run) == Some(r)
  {
    var n := |recs| - 1;
    if recs[n] != r {
      assert r in recs[..n];
      RecordIsProduced(recs[..n], r);
      OnlyRecordIsLast(recs[..n], r);
    }
  }

  lemma SameRecordIsLast<V>(r: seq<Record<V>>, s: seq<Record<V>>, run: string)
    requires multiset(r) == multiset(s) && Copies(r, run) == 1
    ensures LastRecord(r, run).Some? && LastRecord(s, run) == LastRecord(r, run)
  {
    ProducersOfSameRecords(r, s, run);
    OneProducer(r, run);
    LastIsARecord(r, run);
    var last := LastRecord(r, run).value;
    assert last in multiset(r);
    assert last in s;
    OnlyRecordIsLast(s, last);
  }

  /** The harvest does not depend on who finishes first: in any two completion orders of the
      same slices the same runs are there, the same runs are flagged with the same producers
      (each as often), and every run that is not flagged has the same record. */
  lemma CompletionOrderIsIrrelevant<V>(p: seq<ProviderRun<V>>, q: seq<ProviderRun<V>>, g: Harvest<V>, h: Harvest<V>)
    requires multiset(p) == multiset(q) && Merged(g, Flat(p)) && Merged(h, Flat(q))
    ensures g.results.Keys == h.results.Keys && g.duplicates.Keys == h.duplicates.Keys
    ensures forall run :: run in g.duplicates ==> multiset(g.duplicates[run]) == multiset(h.duplicates[run])
    ensures forall run :: run in g.results && run !in g.duplicates ==> g.results[run] == h.results[run]
  {
    SameSlicesSameRecords(p, q);
    var r, s := Flat(p), Flat(q);
    forall run
      ensures run in g.results <==> run in h.results
      ensures run in g.duplicates <==> run in h.duplicates
      ensures run in g.duplicates ==> multiset(g.duplicates[run]) == multiset(h.duplicates[run])
      ensures run in g.results && run !in g.duplicates ==> g.results[run] == h.results[run]
    {
      assert MergedAt(g, r, run) && MergedAt(h, s, run);
      ProducersOfSameRecords(r, s, run);
      if Copies(r, run) == 1 {
        SameRecordIsLast(r, s, run);
      }
    }
  }

  // ---- split, run, merge

  function Names<V>(recs: seq<Record<V>>): seq<string> {
    seq(|recs|, i requires 0 <= i < |recs| => recs[i].run)
  }

  /** Executor b was handed its bucket and either raised or returned one value for each of its
      configs. An executor with an empty bucket is never started, which returns nothing too. */
  ghost predicate RanBuckets<V>(slices: seq<ProviderRun<V>>, executors: seq<string>, buckets: seq<seq<string>>,
                                outcomes: seq<Outcome<V>>)
  {
    && |slices| == |executors| == |buckets| == |outcomes|
    && forall b :: 0 <= b < |buckets| ==> RanBucket(slices[b], executors[b], buckets[b], outcomes[b])
  }

  ghost predicate RanBucket<V>(slice: ProviderRun<V>, executor: string, bucket: seq<string>, outcome: Outcome<V>) {
    && slice == Isolate(executor, |bucket|, outcome)
    && (outcome.Returned? ==> RunNames(outcome.values) == bucket)
  }

  function RunNames<V>(values: seq<(string, V)>): seq<string> {
    seq(|values|, i requires 0 <= i < |values| => values[i].0)
  }

  /** The buckets whose executor did not raise. */
  function Landed<V>(buckets: seq<seq<string>>, outcomes: seq<Outcome<V>>): seq<seq<string>>
    requires |buckets| == |outcomes|
  {
    seq(|buckets|, b requires 0 <= b < |buckets| => if outcomes[b].Returned? then buckets[b] else [])
  }

  lemma {:induction false} NamesOfFlat<V>(slices: seq<ProviderRun<V>>, executors: seq<string>,
                                          buckets: seq<seq<string>>, outcomes: seq<Outcome<V>>)
    requires RanBuckets(slices, executors, buckets, outcomes)
    ensures Names(Flat(slices)) == Concat(Landed(buckets, outcomes))
  {
    if slices != [] {
      var n := |slices| - 1;
      NamesOfFlat(slices[..n], executors[..n], buckets[..n], outcomes[..n]);
      assert Landed(buckets, outcomes)[..n] == Landed(buckets[..n], outcomes[..n]);
      assert RanBucket(slices[n], executors[n], buckets[n], outcomes[n]);
      SliceNames(slices[n], executors[n], buckets[n], outcomes[n]);
      NamesAppend(Flat(slices[..n]), slices[n].records);
    }
  }

  lemma NamesAppend<V>(a: seq<Record<V>>, b: seq<Record<V>>)
    ensures Names(a + b) == Names(a) + Names(b)
  {
  }

  lemma SliceNames<V>(slice: ProviderRun<V>, executor: string, bucket: seq<string>, outcome: Outcome<V>)
    requires RanBucket(slice, executor, bucket, outcome)
    ensures Names(slice.records) == if outcome.Returned? then bucket else []
  {
    if outcome.Returned? {
      assert |slice.records| == |bucket|;
      forall i | 0 <= i < |bucket| ensures slice.records[i].run == bucket[i] {
        assert RunNames(outcome.values)[i] == bucket[i];
      }
    }
  }

  /** Some executor that did not fail was handed this run. */
  ghost predicate Delivered<V>(buckets: seq<seq<string>>, outcomes: seq<Outcome<V>>, run: string)
    requires |buckets| == |outcomes|
  {
    exists b :: 0 <= b < |buckets| && outcomes[b].Returned? && run in buckets[b]
  }

  lemma {:induction false} InConcat(buckets: seq<seq<string>>, run: string)
    ensures run in Concat(buckets) <==> exists b :: 0 <= b < |buckets| && run in buckets[b]
  {
    if buckets != [] {
      var n := |buckets| - 1;
      InConcat(buckets[..n], run);
      assert buckets == buckets[..n] + [buckets[n]];
    }
  }

  lemma LandedIsDelivered<V>(buckets: seq<seq<string>>, outcomes: seq<Outcome<V>>, run: string)
    requires |buckets| == |outcomes|
    ensures run in Concat(Landed(buckets, outcomes)) <==> Delivered(buckets, outcomes, run)
  {
    var landed := Landed(buckets, outcomes);
    InConcat(landed, run);
    if Delivered(buckets, outcomes, run) {
      var b :| 0 <= b < |buckets| && outcomes[b].Returned? && run in buckets[b];
      assert run in landed[b];
    }
  }

  lemma {:induction false} LandedIsPart<V>(buckets: seq<seq<string>>, outcomes: seq<Outcome<V>>, run: string)
    requires |buckets| == |outcomes|
    ensures multiset(Concat(Landed(buckets, outcomes)))[run] <= multiset(Concat(buckets))[run]
  {
    if buckets != [] {
      var n := |buckets| - 1;
      LandedIsPart(buckets[..n], outcomes[..n], run);
      assert Landed(buckets, outcomes)[..n] == Landed(buckets[..n], outcomes[..n]);
    }
  }

  lemma {:induction false} CopiesAreOccurrences<V>(recs: seq<Record<V>>, run: string)
    ensures Copies(recs, run) == multiset(Names(recs))[run]
  {
    if recs != [] {
      var n := |recs| - 1;
      CopiesAreOccurrences(recs[..n], run);
      assert Names(recs) == Names(recs[..n]) + [recs[n].run];
    }
  }

  /** However the slices arrive, a run has as many records as its name was handed to executors
      that did not fail. */
  lemma CopiesLanded<V>(slices: seq<ProviderRun<V>>, arrivals: seq<ProviderRun<V>>, landed: seq<string>, run: string)
    requires Names(Flat(slices)) == landed && multiset(arrivals) == multiset(slices)
    ensures Copies(Flat(arrivals), run) == multiset(landed)[run]
  {
    SameSlicesSameRecords(arrivals, slices);
    CopiesAreOccurrences(Flat(slices), run);
    ProducersOfSameRecords(Flat(arrivals), Flat(slices), run);
  }

  /** Conservation from split to harvest: assign configs with distinct run names once each, let
      every executor return its slice or fail, and merge in any completion order. No duplicate
      is flagged, and the harvest has exactly the runs of the executors that did not fail. */
  lemma HarvestIsComplete<V>(names: seq<string>, executors: seq<string>, buckets: seq<seq<string>>,
                             outcomes: seq<Outcome<V>>, slices: seq<ProviderRun<V>>,
                             arrivals: seq<ProviderRun<V>>, h: Harvest<V>)
    requires multiset(Concat(buckets)) == multiset(names) && forall run :: multiset(names)[run] <= 1
    requires RanBuckets(slices, executors, buckets, outcomes)
    requires multiset(arrivals) == multiset(slices) && Merged(h, Flat(arrivals))
    ensures h.duplicates == map[] && forall run :: run in h.results <==> Delivered(buckets, outcomes, run)
    ensures (forall o :: o in outcomes ==> o.Returned?) ==> h.results.Keys == set run | run in names
  {
    var landed := Concat(Landed(buckets, outcomes));
    NamesOfFlat(slices, executors, buckets, outcomes);
    forall run ensures run !in h.duplicates && (run in h.results <==> Delivered(buckets, outcomes, run)) {
      LandedIsDelivered(buckets, outcomes, run);
      LandedIsPart(buckets, outcomes, run);
      CopiesLanded(slices, arrivals, landed, run);
      OneCopyEach(h, Flat(arrivals), landed, run);
    }
    if forall o :: o in outcomes ==> o.Returned? {
      forall run ensures Delivered(buckets, outcomes, run) <==> run in names {
        LandedIsDelivered(buckets, outcomes, run);
        AllLanded(names, buckets, outcomes, run);
      }
    }
  }

  lemma OneCopyEach<V>(h: Harvest<V>, recs: seq<Record<V>>, landed: seq<string>, run: string)
    requires Merged(h, recs) && Copies(recs, run) == multiset(landed)[run] <= 1
    ensures run !in h.duplicates && (run in h.results <==> run in landed)
  {
    assert MergedAt(h, recs, run);
    assert run in multiset(landed) <==> run in landed;
  }

  lemma AllLanded<V>(names: seq<string>, buckets: seq<seq<string>>, outcomes: seq<Outcome<V>>, run: string)
    requires multiset(Concat(buckets)) == multiset(names) && |buckets| == |outcomes|
    requires forall o :: o in outcomes ==> o.Returned?
    ensures run in Concat(Landed(buckets, outcomes)) <==> run in names
  {
    assert Landed(buckets, outcomes) == buckets;
    assert run in multiset(names) <==> run in names;
    assert run in multiset(Concat(buckets)) <==> run in Concat(buckets);
  }
}

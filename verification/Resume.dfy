/** One run, attempted again and again: what a crash at any point leaves, and what resuming
    makes of it. */
module Resume {
  import opened Prelude

  /** A deterministic run function that checkpoints and reports after every step. */
  datatype RunFn<!S, E, R> = RunFn(
    init: S,
    next: (S, nat) -> S,
    steps: int,
    event: (S, nat) -> E,
    result: S -> R)

  /** Atomic durable effects. */
  datatype Effect<S, E, R> =
    | PutConfig
    | ListRun
    | Save(state: S, step: nat)
    | Emit(step: nat, event: E)
    | Finish(result: R)

  /** What one run keeps on disk. */
  datatype Durable<S, E, R> = Durable(
    configured: bool,
    listed: nat, // lines in the base manifest
    checkpoint: Option<(S, nat)>,
    events: seq<(nat, E)>,
    done: Option<R>)

  function Apply<S, E, R>(d: Durable<S, E, R>, e: Effect<S, E, R>): Durable<S, E, R> {
    match e
    case PutConfig => d.(configured := true)
    case ListRun => d.(listed := d.listed + 1)
    case Save(s, k) => d.(checkpoint := Some((s, k)))
    case Emit(k, x) => d.(events := d.events + [(k, x)])
    case Finish(r) => d.(done := Some(r))
  }

  function ApplyAll<S, E, R>(d: Durable<S, E, R>, es: seq<Effect<S, E, R>>): Durable<S, E, R>
    decreases |es|
  {
    if es == [] then d else ApplyAll(Apply(d, es[0]), es[1..])
  }

  /** Steps k to the end, starting from state s. */
  function StepEffects<S, E, R>(f: RunFn<S, E, R>, s: S, k: nat): seq<Effect<S, E, R>>
    decreases f.steps + 1 - k
  {
    if k > f.steps then [Finish(f.result(s))]
    else
      var t := f.next(s, k);
      [Save(t, k), Emit(k, f.event(t, k))] + StepEffects(f, t, k + 1)
  }

  function StartStep<S, E, R>(d: Durable<S, E, R>): nat {
    if d.checkpoint.None? then 1 else d.checkpoint.value.1 + 1
  }

  function StartState<S, E, R>(f: RunFn<S, E, R>, d: Durable<S, E, R>): S {
    if d.checkpoint.None? then f.init else d.checkpoint.value.0
  }

  /** Everything one attempt does: register, then nothing if the run is done, else the steps
      from the checkpoint on, and the result. */
  function Effects<S, E, R>(f: RunFn<S, E, R>, d: Durable<S, E, R>): seq<Effect<S, E, R>> {
    (if d.configured then [] else Registering())
    + (if d.done.Some? then [] else StepEffects(f, StartState(f, d), StartStep(d)))
  }

  function Fresh<S, E, R>(): Durable<S, E, R> { Durable(false, 0, None, [], None) }

  function Attempt<S, E, R>(f: RunFn<S, E, R>, d: Durable<S, E, R>): Durable<S, E, R> {
    ApplyAll(d, Effects(f, d))
  }

  function Cut<T>(es: seq<T>, n: nat): seq<T> {
    if n < |es| then es[..n] else es
  }

  /** An attempt that dies after n effects, or after the last one. */
  function CrashedAttempt<S, E, R>(f: RunFn<S, E, R>, d: Durable<S, E, R>, n: nat): Durable<S, E, R> {
    ApplyAll(d, Cut(Effects(f, d), n))
  }

  function Crashes<S, E, R>(f: RunFn<S, E, R>, points: seq<nat>): Durable<S, E, R> {
    if points == [] then Fresh()
    else CrashedAttempt(f, Crashes(f, points[..|points| - 1]), points[|points| - 1])
  }

  // ---- the reference: the uninterrupted run

  function StateAt<S, E, R>(f: RunFn<S, E, R>, k: nat): S {
    if k == 0 then f.init else f.next(StateAt(f, k - 1), k)
  }

  function LastStep<S, E, R>(f: RunFn<S, E, R>): nat { if f.steps < 0 then 0 else f.steps }

  function Uninterrupted<S, E, R>(f: RunFn<S, E, R>): R { f.result(StateAt(f, LastStep(f))) }

  // ---- what every crash leaves

  function Reached<S, E, R>(d: Durable<S, E, R>): nat { StartStep(d) - 1 }

  ghost predicate EventsAscend<E>(events: seq<(nat, E)>) {
    forall i, j :: 0 <= i < j < |events| ==> events[i].0 < events[j].0
  }

  ghost predicate EventsTrue<S, E, R>(f: RunFn<S, E, R>, events: seq<(nat, E)>, upTo: nat) {
    forall i :: 0 <= i < |events| ==>
      1 <= events[i].0 <= upTo && events[i].1 == f.event(StateAt(f, events[i].0), events[i].0)
  }

  /** On course: the checkpoint is a state of the uninterrupted run, the events are its events
      in order with at most `lost` of them missing, and a result is its result. */
  ghost predicate OnCourse<S(!new), E(!new), R(!new)>(f: RunFn<S, E, R>, d: Durable<S, E, R>, lost: nat) {
    && Reached(d) <= LastStep(f)
    && (d.checkpoint.Some? ==> d.checkpoint.value.1 >= 1)
    && StartState(f, d) == StateAt(f, Reached(d))
    && EventsAscend(d.events) && EventsTrue(f, d.events, Reached(d))
    && Reached(d) <= |d.events| + lost
    && (d.done.Some? ==> d.done.value == Uninterrupted(f) && Reached(d) == LastStep(f))
    && d.listed <= 1 && (d.listed == 1 ==> d.configured)
  }

  lemma {:induction false} ApplyAppend<S, E, R>(d: Durable<S, E, R>, a: seq<Effect<S, E, R>>, b: seq<Effect<S, E, R>>)
    ensures ApplyAll(d, a + b) == ApplyAll(ApplyAll(d, a), b)
    decreases |a|
  {
    if a == [] {
      assert a + b == b;
    } else {
      assert (a + b)[0] == a[0] && (a + b)[1..] == a[1..] + b;
      ApplyAppend(Apply(d, a[0]), a[1..], b);
    }
  }

  lemma SaveAndEmitStayOnCourse<S(!new), E(!new), R(!new)>(f: RunFn<S, E, R>, d: Durable<S, E, R>, lost: nat)
    requires OnCourse(f, d, lost) && d.done.None? && StartStep(d) <= f.steps
    ensures var k := StartStep(d);
            var t := f.next(StartState(f, d), k);
            var saved := Apply(d, Save(t, k));
            OnCourse(f, saved, lost + 1) && OnCourse(f, Apply(saved, Emit(k, f.event(t, k))), lost)
  {
    var k := StartStep(d);
    var t := f.next(StartState(f, d), k);
    assert t == StateAt(f, k);
  }

  /** Wherever the steps are cut: still on course, one more event possibly missing. */
  lemma {:induction false} CutStepsStayOnCourse<S(!new), E(!new), R(!new)>(
      f: RunFn<S, E, R>, d: Durable<S, E, R>, lost: nat, n: nat)
    requires OnCourse(f, d, lost) && d.done.None? && n <= |StepEffects(f, StartState(f, d), StartStep(d))|
    ensures var es := StepEffects(f, StartState(f, d), StartStep(d));
            var e := ApplyAll(d, es[..n]);
            && OnCourse(f, e, lost + 1) && e.configured == d.configured && e.listed == d.listed
            && (n == |es| ==> OnCourse(f, e, lost) && e.done == Some(Uninterrupted(f)))
    decreases f.steps + 1 - StartStep(d)
  {
    var k := StartStep(d);
    var es := StepEffects(f, StartState(f, d), k);
    if n == 0 {
      assert es[..n] == [];
    } else if k > f.steps {
      assert es[..n] == [Finish(f.result(StartState(f, d)))];
    } else {
      var t := f.next(StartState(f, d), k);
      var save, emit := Save(t, k), Emit(k, f.event(t, k));
      SaveAndEmitStayOnCourse(f, d, lost);
      if n == 1 {
        assert es[..n] == [save];
      } else {
        var rest := StepEffects(f, t, k + 1);
        var next := Apply(Apply(d, save), emit);
        assert es[..n] == [save, emit] + rest[..n - 2];
        ApplyAppend(d, [save, emit], rest[..n - 2]);
        assert [save, emit][1..] == [emit] && [emit][1..] == [];
        CutStepsStayOnCourse(f, next, lost, n - 2);
      }
    }
  }

  /** Any attempt, cut anywhere. */
  lemma CutAttemptStaysOnCourse<S(!new), E(!new), R(!new)>(f: RunFn<S, E, R>, d: Durable<S, E, R>, lost: nat, n: nat)
    requires OnCourse(f, d, lost) && n <= |Effects(f, d)|
    ensures var e := ApplyAll(d, Effects(f, d)[..n]);
            && OnCourse(f, e, lost + 1)
            && (n == |Effects(f, d)| ==> OnCourse(f, e, lost) && e.done == Some(Uninterrupted(f)))
  {
    var head := if d.configured then [] else Registering();
    var tail := if d.done.Some? then [] else StepEffects(f, StartState(f, d), StartStep(d));
    var es := head + tail;
    RegisterStaysOnCourse(f, d, lost, head, if n < |head| then n else |head|);
    if n <= |head| {
      assert es[..n] == head[..n];
    } else {
      var r := ApplyAll(d, head);
      assert es[..n] == head + tail[..n - |head|] && head[..|head|] == head;
      ApplyAppend(d, head, tail[..n - |head|]);
      CutStepsStayOnCourse(f, r, lost, n - |head|);
    }
    if n == |head| == |es| {
      assert tail == [];
    }
  }

  function Registering<S, E, R>(): seq<Effect<S, E, R>> { [PutConfig, ListRun] }

  lemma RegisteredBy<S, E, R>(d: Durable<S, E, R>, n: nat)
    requires n <= 2
    ensures ApplyAll(d, Registering()[..n])
         == if n == 0 then d
            else if n == 1 then d.(configured := true)
            else d.(configured := true, listed := d.listed + 1)
  {
    var cut: seq<Effect<S, E, R>> := Registering()[..n];
    if n == 1 {
      assert cut == [PutConfig] && cut[1..] == [];
    } else if n == 2 {
      assert cut == [PutConfig, ListRun] && cut[1..] == [ListRun] && cut[1..][1..] == [];
    }
  }

  lemma RegisterStaysOnCourse<S(!new), E(!new), R(!new)>(
      f: RunFn<S, E, R>, d: Durable<S, E, R>, lost: nat, head: seq<Effect<S, E, R>>, n: nat)
    requires OnCourse(f, d, lost) && head == (if d.configured then [] else Registering()) && n <= |head|
    ensures var r := ApplyAll(d, head[..n]);
            OnCourse(f, r, lost) && OnCourse(f, r, lost + 1)
            && r.checkpoint == d.checkpoint && r.events == d.events && r.done == d.done
  {
    if !d.configured {
      RegisteredBy(d, n);
    }
  }

  lemma {:induction false} CrashesStayOnCourse<S(!new), E(!new), R(!new)>(f: RunFn<S, E, R>, points: seq<nat>)
    ensures OnCourse(f, Crashes(f, points), |points|)
  {
    if points != [] {
      var n := |points| - 1;
      CrashesStayOnCourse(f, points[..n]);
      var d := Crashes(f, points[..n]);
      var es := Effects(f, d);
      CutAttemptStaysOnCourse(f, d, n, if points[n] < |es| then points[n] else |es|);
      assert es[..|es|] == es;
    }
  }

  /** Crash and resume equals never having crashed: after any crashes, one attempt that is
      left alone ends with the uninterrupted result; the events of all attempts together are
      those of the uninterrupted run, in order, at most one missing for each crash. */
  lemma ResumeIsExact<S(!new), E(!new), R(!new)>(f: RunFn<S, E, R>, points: seq<nat>)
    ensures var d := Attempt(f, Crashes(f, points));
            && d.done == Some(Uninterrupted(f))
            && EventsAscend(d.events) && EventsTrue(f, d.events, LastStep(f))
            && LastStep(f) - |points| <= |d.events| <= LastStep(f)
  {
    var c := Crashes(f, points);
    CrashesStayOnCourse(f, points);
    CutAttemptStaysOnCourse(f, c, |points|, |Effects(f, c)|);
    assert Effects(f, c)[..|Effects(f, c)|] == Effects(f, c);
    AscendingFits(Attempt(f, c).events, LastStep(f));
  }

  lemma {:induction false} AscendingFits<E>(events: seq<(nat, E)>, upTo: nat)
    requires EventsAscend(events) && forall i :: 0 <= i < |events| ==> 1 <= events[i].0 <= upTo
    ensures |events| <= upTo
  {
    if events != [] {
      var n := |events| - 1;
      AscendingFits(events[..n], events[n].0 - 1);
    }
  }

  /** Once the result is written, another attempt changes nothing the run keeps: no checkpoint,
      no event, no result. */
  lemma DoneIsDone<S(!new), E(!new), R(!new)>(f: RunFn<S, E, R>, d: Durable<S, E, R>, n: nat)
    requires d.done.Some?
    ensures var e := CrashedAttempt(f, d, n);
            e.checkpoint == d.checkpoint && e.events == d.events && e.done == d.done
    ensures d.configured ==> CrashedAttempt(f, d, n) == d
  {
    var es := Effects(f, d);
    assert es == if d.configured then [] else Registering();
    if !d.configured {
      RegisteredBy(d, if n < 2 then n else 2);
      assert Registering<S, E, R>()[..2] == Registering();
    }
  }

  /** How far the first attempt that did anything got. */
  function FirstProgress(points: seq<nat>): nat {
    if points == [] then 0
    else
      var earlier := FirstProgress(points[..|points| - 1]);
      if earlier > 0 then earlier else points[|points| - 1]
  }

  ghost predicate NeverLists<S(!new), E(!new), R(!new)>(es: seq<Effect<S, E, R>>) {
    forall e :: e in es ==> !e.ListRun? && !e.PutConfig?
  }

  lemma {:induction false} ListingIsKept<S(!new), E(!new), R(!new)>(d: Durable<S, E, R>, es: seq<Effect<S, E, R>>)
    requires NeverLists(es)
    ensures ApplyAll(d, es).listed == d.listed && ApplyAll(d, es).configured == d.configured
    decreases |es|
  {
    if es != [] {
      ListingIsKept(Apply(d, es[0]), es[1..]);
    }
  }

  lemma {:induction false} StepsNeverList<S(!new), E(!new), R(!new)>(f: RunFn<S, E, R>, s: S, k: nat)
    ensures NeverLists(StepEffects(f, s, k))
    decreases f.steps + 1 - k
  {
    if k <= f.steps {
      StepsNeverList(f, f.next(s, k), k + 1);
    }
  }

  /** Registration is two writes, and only its first is checked: a run is on the manifest, and
      then once, exactly when the first attempt to write anything got past the config file. A
      crash between the two leaves the run off the manifest for good. */
  lemma {:induction false} ListedExactly<S(!new), E(!new), R(!new)>(f: RunFn<S, E, R>, points: seq<nat>)
    ensures Crashes(f, points).configured <==> FirstProgress(points) > 0
    ensures Crashes(f, points).listed == if FirstProgress(points) > 1 then 1 else 0
  {
    if points != [] {
      var n := |points| - 1;
      ListedExactly(f, points[..n]);
      CutListing(f, Crashes(f, points[..n]), points[n]);
    }
  }

  lemma CutListing<S(!new), E(!new), R(!new)>(f: RunFn<S, E, R>, d: Durable<S, E, R>, n: nat)
    ensures CrashedAttempt(f, d, n).configured <==> d.configured || n > 0
    ensures CrashedAttempt(f, d, n).listed == d.listed + if !d.configured && n > 1 then 1 else 0
  {
    var head := if d.configured then [] else Registering();
    var tail := if d.done.Some? then [] else StepEffects(f, StartState(f, d), StartStep(d));
    var es := Effects(f, d);
    StepsNeverList(f, StartState(f, d), StartStep(d));
    if d.configured {
      assert es == tail;
      ListingIsKept(d, Cut(es, n));
    } else if n <= 2 {
      assert Cut(es, n) == head[..n];
      RegisteredBy(d, n);
    } else {
      assert Cut(es, n) == head + Cut(tail, n - 2);
      ApplyAppend(d, head, Cut(tail, n - 2));
      RegisteredBy(d, 2);
      assert head[..2] == head;
      ListingIsKept(ApplyAll(d, head), Cut(tail, n - 2));
    }
  }

  // ---- the run function that only counts

  datatype CountResult = CountResult(finalCount: real, steps: int, run: string)

  function Counting(steps: int, run: string): RunFn<real, real, CountResult> {
    RunFn(0.0, (count: real, k: nat) => count + 1.0, steps, (count: real, k: nat) => count,
          (count: real) => CountResult(count, steps, run))
  }

  lemma {:induction false} CountIsStep(steps: int, run: string, k: nat)
    ensures StateAt(Counting(steps, run), k) == k as real
  {
    if k > 0 {
      CountIsStep(steps, run, k - 1);
    }
  }

  /** However often it was cut, the count continues rather than restarts. */
  lemma CountingResumes(steps: int, run: string, points: seq<nat>)
    ensures var d := Attempt(Counting(steps, run), Crashes(Counting(steps, run), points));
            && d.done == Some(CountResult(if steps < 0 then 0.0 else steps as real, steps, run))
            && (forall i :: 0 <= i < |d.events| ==> d.events[i].1 == d.events[i].0 as real)
            && (points == [] && steps >= 0 ==> |d.events| == steps)
  {
    var f := Counting(steps, run);
    ResumeIsExact(f, points);
    CountIsStep(steps, run, LastStep(f));
    var d := Attempt(f, Crashes(f, points));
    forall i | 0 <= i < |d.events| ensures d.events[i].1 == d.events[i].0 as real {
      CountIsStep(steps, run, d.events[i].0);
    }
  }
}

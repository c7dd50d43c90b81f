/** The file registry, and the driver that runs one config against it. */
module Registry {
  import opened Prelude
  import opened Resume

  /** A base directory of run directories: configs, checkpoints, results, event logs and the
      manifest, as the file registry and the file sink write them. */
  class FileRunRegistry<S, E, R> {
    var configs: set<string>
    var manifest: seq<string>
    var checkpoints: map<string, (S, nat)>
    var logs: map<string, seq<(nat, E)>>
    var results: map<string, R>

    ghost function View(name: string): Durable<S, E, R>
      reads this
    {
      Durable(name in configs,
              multiset(manifest)[name],
              if name in checkpoints then Some(checkpoints[name]) else None,
              if name in logs then logs[name] else [],
              if name in results then Some(results[name]) else None)
    }

    constructor ()
      ensures forall name :: View(name) == Fresh()
    {
      configs, manifest, checkpoints, logs, results := {}, [], map[], map[], map[];
    }

    method Register(name: string)
      modifies this
      ensures View(name) == ApplyAll(old(View(name)), if old(View(name)).configured then [] else Registering())
      ensures forall other :: other != name ==> View(other) == old(View(other))
    {
      if name !in configs {
        RegisteredBy(View(name), 2);
        assert Registering<S, E, R>()[..2] == Registering();
        configs := configs + {name};
        manifest := manifest + [name];
      }
    }

    method IsComplete(name: string) returns (complete: bool)
      ensures complete <==> View(name).done.Some?
    {
      complete := name in results;
    }

    method Load(name: string) returns (resume: Option<(S, nat)>)
      ensures resume == View(name).checkpoint
    {
      resume := if name in checkpoints then Some(checkpoints[name]) else None;
    }

    method Save(name: string, state: S, step: nat)
      modifies `checkpoints
      ensures View(name) == Apply(old(View(name)), Effect.Save(state, step))
      ensures forall other :: other != name ==> View(other) == old(View(other))
    {
      checkpoints := checkpoints[name := (state, step)];
    }

    method Emit(name: string, step: nat, event: E)
      modifies `logs
      ensures View(name) == Apply(old(View(name)), Effect.Emit(step, event))
      ensures forall other :: other != name ==> View(other) == old(View(other))
    {
      logs := logs[name := (if name in logs then logs[name] else []) + [(step, event)]];
    }

    method Finish(name: string, result: R)
      modifies `results
      ensures View(name) == Apply(old(View(name)), Effect.Finish(result))
      ensures forall other :: other != name ==> View(other) == old(View(other))
    {
      results := results[name := result];
    }
  }

  /** Register, skip when complete, resume or start fresh, run, finish: an attempt nobody
      interrupts. No other run is touched. */
  method ExecuteConfig<S, E, R>(f: RunFn<S, E, R>, name: string, files: FileRunRegistry<S, E, R>)
      returns (result: Option<R>)
    modifies files
    ensures files.View(name) == Attempt(f, old(files.View(name)))
    ensures result == if old(files.View(name)).done.Some? then None else files.View(name).done
    ensures forall other :: other != name ==> files.View(other) == old(files.View(other))
  {
    ghost var before := files.View(name);
    ghost var head := if before.configured then [] else Registering();
    ghost var tail := if before.done.Some? then [] else StepEffects(f, StartState(f, before), StartStep(before));
    ApplyAppend(before, head, tail);
    files.Register(name);
    RegisteredBy(before, 2);
    assert Registering<S, E, R>()[..2] == Registering();
    var complete := files.IsComplete(name);
    if complete {
      return None;
    }
    var resume := files.Load(name);
    var s := if resume.None? then f.init else resume.value.0;
    var k := if resume.None? then 1 else resume.value.1 + 1;
    s := RunSteps(f, name, files, s, k);
    result := Some(f.result(s));
    files.Finish(name, f.result(s));
  }

  /** The run function's own loop: advance, checkpoint, report. */
  method RunSteps<S, E, R>(f: RunFn<S, E, R>, name: string, files: FileRunRegistry<S, E, R>, start: S, first: nat)
      returns (s: S)
    modifies files
    ensures ApplyAll(old(files.View(name)), StepEffects(f, start, first))
         == Apply(files.View(name), Finish(f.result(s)))
    ensures forall other :: other != name ==> files.View(other) == old(files.View(other))
  {
    ghost var goal := ApplyAll(files.View(name), StepEffects(f, start, first));
    var k := first;
    s := start;
    while k <= f.steps
      invariant goal == ApplyAll(files.View(name), StepEffects(f, s, k))
      invariant forall other :: other != name ==> files.View(other) == old(files.View(other))
      decreases f.steps + 1 - k
    {
      OneStep(f, files.View(name), s, k);
      var t := f.next(s, k);
      SaveAndEmit(name, files, t, k, f.event(t, k));
      s, k := t, k + 1;
    }
    NoStepsLeft(f, files.View(name), s, k);
  }

  lemma NoStepsLeft<S, E, R>(f: RunFn<S, E, R>, d: Durable<S, E, R>, s: S, k: nat)
    requires k > f.steps
    ensures ApplyAll(d, StepEffects(f, s, k)) == Apply(d, Finish(f.result(s)))
  {
    assert StepEffects(f, s, k) == [Finish(f.result(s))] && StepEffects(f, s, k)[1..] == [];
  }

  method SaveAndEmit<S, E, R>(name: string, files: FileRunRegistry<S, E, R>, t: S, k: nat, event: E)
    modifies files
    ensures files.View(name) == Apply(Apply(old(files.View(name)), Save(t, k)), Emit(k, event))
    ensures forall other :: other != name ==> files.View(other) == old(files.View(other))
  {
    files.Save(name, t, k);
    files.Emit(name, k, event);
  }

  lemma OneStep<S, E, R>(f: RunFn<S, E, R>, d: Durable<S, E, R>, s: S, k: nat)
    requires k <= f.steps
    ensures ApplyAll(d, StepEffects(f, s, k))
         == ApplyAll(Apply(Apply(d, Save(f.next(s, k), k)), Emit(k, f.event(f.next(s, k), k))),
                     StepEffects(f, f.next(s, k), k + 1))
  {
    var t := f.next(s, k);
    var es, rest := StepEffects(f, s, k), StepEffects(f, t, k + 1);
    assert es == [Save(t, k), Emit(k, f.event(t, k))] + rest;
    assert es[1..] == [Emit(k, f.event(t, k))] + rest && es[1..][1..] == rest;
  }
}

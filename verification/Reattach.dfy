/** Running a command on a rented box over ssh, reattaching when only the channel died. */
module Reattach {
  import opened Prelude

  const TRANSPORT_RC := 255
  const TIMEOUT_RC := 124

  /** One probe for a surviving worker: how long it takes and whether it says GONE. */
  datatype Reply = Reply(took: real, gone: bool)

  /** Everything the box and the provider do around one attempt. `workerEnds` is when the
      worker this attempt started really ends, which may be long after its channel. */
  datatype Try = Try(took: real, rc: int, workerEnds: real, checkTook: real, dead: bool, probes: nat -> Reply)

  type Script = nat -> Try

  /** `checkLimit` bounds one look at the provider's status. */
  datatype Policy = Policy(runTimeout: real, reattach: nat, backoff: real, checkLimit: real, probing: bool)

  /** `cut` when the channel was cut off at its grant, so that the code is ssh's own. */
  datatype Invocation = Invocation(start: real, granted: real, end: real, cut: bool, rc: int, workerEnds: real)

  datatype Event = Ran(run: Invocation) | Probed(at: real, gone: bool)

  type Log = seq<Event>

  /** How a call ends; the last is the exception of a sleep asked for a negative time. */
  datatype Verdict = Spoke(rc: int) | OutOfTime | HostDead | LastAttempt | WorkerMayRun | SleepRaised

  function ExitCode(v: Verdict): Option<int> {
    match v
    case Spoke(rc) => Some(rc)
    case OutOfTime => Some(TIMEOUT_RC)
    case SleepRaised => None
    case _ => Some(TRANSPORT_RC)
  }

  function Clamp(x: real, limit: real): real {
    Max(0.0, Min(x, limit))
  }

  /** ssh is cut off when its grant is used up, and then reports the timeout code. */
  function Run(t: Try, now: real, granted: real): Invocation {
    Invocation(now, granted, now + Clamp(t.took, granted), t.took > granted,
               if t.took > granted then TIMEOUT_RC else t.rc, t.workerEnds)
  }

  // ---- the probe loop

  const PROBE_LIMIT := 30.0

  /** How many backoffs fit, rounded up: the probe loop's own bound. */
  ghost function Backoffs(left: real, backoff: real): nat {
    if left <= 0.0 || backoff <= 0.0 then 0 else
    (assert left / backoff > 0.0; (left / backoff).Floor + 1)
  }

  lemma BackoffUsed(left: real, less: real, backoff: real)
    requires backoff > 0.0 && left > 0.0 && less <= left - backoff
    ensures Backoffs(less, backoff) < Backoffs(left, backoff)
  {
    if less > 0.0 {
      DivLess(left, less, backoff);
    }
  }

  lemma DivLess(left: real, less: real, step: real)
    requires step > 0.0 && less <= left - step
    ensures less / step <= left / step - 1.0
  {
    var x, y := left / step, less / step;
    assert x * step == left && y * step == less;
    assert (y - (x - 1.0)) * step == less - (left - step);
    NotPositive(y - (x - 1.0), step);
  }

  lemma NotPositive(x: real, y: real)
    requires y > 0.0 && x * y <= 0.0
    ensures x <= 0.0
  {
  }

  /** Waits until the box says no worker runs, or the budget ends; an unclear answer is "still
      running". */
  function WorkerGone(backoff: real, probes: nat -> Reply, k: nat, deadline: real, now: real,
                      log: Log): (bool, real, Log)
    decreases Backoffs(deadline - now, backoff), if now < deadline then 1 else 0
  {
    var left := deadline - now;
    if left <= 0.0 then (false, now, log)
    else
      var r := probes(k);
      var after := now + Clamp(r.took, Min(PROBE_LIMIT, left));
      var seen := log + [Probed(after, r.gone)];
      if r.gone then (true, after, seen)
      else
        var nap := Min(backoff, Max(0.0, deadline - after));
        if nap <= 0.0 then (false, after, seen)
        else
          ProbeLoopShrinks(backoff, deadline, now, after, nap);
          WorkerGone(backoff, probes, k + 1, deadline, after + nap, seen)
  }

  lemma ProbeLoopShrinks(backoff: real, deadline: real, now: real, after: real, nap: real)
    requires now < deadline && now <= after && nap == Min(backoff, Max(0.0, deadline - after)) && nap > 0.0
    ensures Backoffs(deadline - (after + nap), backoff) < Backoffs(deadline - now, backoff)
         || (&& Backoffs(deadline - (after + nap), backoff) == Backoffs(deadline - now, backoff)
             && after + nap >= deadline)
  {
    if nap == backoff {
      BackoffUsed(deadline - now, deadline - (after + nap), backoff);
    }
  }

  // ---- the attempts

  /** One attempt: a verdict, or nothing when the command is to be entered again. One deadline
      is shared by all attempts; a transport failure alone re-enters. */
  function OneAttempt(p: Policy, script: Script, i: nat, deadline: real, now: real,
                      log: Log): (Option<Verdict>, real, Log)
  {
    var left := deadline - now;
    if left <= 0.0 then (Some(OutOfTime), now, log)
    else
      var t := script(i);
      var run := Run(t, now, left);
      if run.rc != TRANSPORT_RC then (Some(Spoke(run.rc)), run.end, log + [Ran(run)])
      else if i == p.reattach then (Some(LastAttempt), run.end, log + [Ran(run)])
      else
        var checked := run.end + Clamp(t.checkTook, p.checkLimit);
        if t.dead then (Some(HostDead), checked, log + [Ran(run)])
        else
          var g := Guard(p, t, deadline, checked, log + [Ran(run)]);
          if !g.0 then (Some(WorkerMayRun), g.1, g.2)
          else if !p.probing && p.backoff < 0.0 then (Some(SleepRaised), g.1, g.2)
          else (None, g.1 + Nap(p, deadline, g.1), g.2)
  }

  function Attempts(p: Policy, script: Script, i: nat, deadline: real, now: real, log: Log): (Verdict, real, Log)
    requires i <= p.reattach
    decreases p.reattach - i
  {
    var one := OneAttempt(p, script, i, deadline, now, log);
    if one.0.Some? then (one.0.value, one.1, one.2)
    else Attempts(p, script, i + 1, deadline, one.1, one.2)
  }

  /** The worker guard; a plain command has none. */
  function Guard(p: Policy, t: Try, deadline: real, now: real, log: Log): (bool, real, Log) {
    if p.probing
    then WorkerGone(p.backoff, t.probes, 0, now + Min(p.backoff * 3.0, Max(0.0, deadline - now)), now, log)
    else (true, now, log)
  }

  function Nap(p: Policy, deadline: real, now: real): real {
    Max(0.0, Min(p.backoff, Max(0.0, deadline - now)))
  }

  // ---- the box, and the two loops as they run

  class Box {
    const script: Script
    const checkLimit: real
    var now: real
    var log: Log

    constructor (script: Script, checkLimit: real, now: real)
      ensures this.script == script && this.checkLimit == checkLimit && this.now == now && log == []
    {
      this.script, this.checkLimit, this.now, log := script, checkLimit, now, [];
    }

    method Ssh(i: nat, timeout: real) returns (rc: int)
      modifies this
      ensures var run := Run(script(i), old(now), timeout);
              rc == run.rc && now == run.end && log == old(log) + [Ran(run)]
    {
      var run := Run(script(i), now, timeout);
      rc, now, log := run.rc, run.end, log + [Ran(run)];
    }

    method CheckDead(i: nat) returns (dead: bool)
      modifies `now
      ensures dead == script(i).dead && now == old(now) + Clamp(script(i).checkTook, checkLimit)
    {
      dead, now := script(i).dead, now + Clamp(script(i).checkTook, checkLimit);
    }

    method Sleep(nap: real)
      modifies `now
      ensures now == old(now) + nap
    {
      now := now + nap;
    }

    method Probe(i: nat, k: nat, timeout: real) returns (gone: bool)
      modifies this
      ensures gone == script(i).probes(k).gone && now == old(now) + Clamp(script(i).probes(k).took, timeout)
      ensures log == old(log) + [Probed(now, gone)]
    {
      gone, now := script(i).probes(k).gone, now + Clamp(script(i).probes(k).took, timeout);
      log := log + [Probed(now, gone)];
    }
  }

  method RunCommand(p: Policy, reattachable: bool, box: Box) returns (v: Verdict)
    requires box.checkLimit == p.checkLimit && !p.probing
    modifies box
    ensures reattachable ==>
              (v, box.now, box.log)
              == Attempts(p, box.script, 0, old(box.now) + p.runTimeout, old(box.now), old(box.log))
    ensures !reattachable ==>
              (v, box.now, box.log)
              == Attempts(p.(reattach := 0), box.script, 0, old(box.now) + p.runTimeout, old(box.now), old(box.log))
  {
    var q := p.(reattach := if reattachable then p.reattach else 0);
    var deadline := box.now + q.runTimeout;
    ghost var goal := Attempts(q, box.script, 0, deadline, box.now, box.log);
    for i := 0 to q.reattach + 1
      invariant i <= q.reattach ==> goal == Attempts(q, box.script, i, deadline, box.now, box.log)
      invariant i <= q.reattach
    {
      var verdict := TryCommand(q, i, deadline, box);
      if verdict.Some? {
        return verdict.value;
      }
    }
  }

  method TryCommand(p: Policy, i: nat, deadline: real, box: Box) returns (v: Option<Verdict>)
    requires i <= p.reattach && box.checkLimit == p.checkLimit && !p.probing
    modifies box
    ensures (v, box.now, box.log) == OneAttempt(p, box.script, i, deadline, old(box.now), old(box.log))
    ensures v.None? ==> i < p.reattach
  {
    var left := deadline - box.now;
    if left <= 0.0 {
      return Some(OutOfTime);
    }
    var rc := box.Ssh(i, left);
    if rc != TRANSPORT_RC {
      return Some(Spoke(rc));
    }
    if i == p.reattach {
      return Some(LastAttempt);
    }
    var dead := box.CheckDead(i);
    if dead {
      return Some(HostDead);
    }
    var nap := Min(p.backoff, Max(0.0, deadline - box.now));
    if nap < 0.0 {
      return Some(SleepRaised);
    }
    box.Sleep(nap);
    v := None;
  }

  method WaitWorkerGone(i: nat, backoff: real, budget: real, box: Box) returns (gone: bool)
    modifies box
    ensures (gone, box.now, box.log)
         == WorkerGone(backoff, box.script(i).probes, 0, old(box.now) + budget, old(box.now), old(box.log))
  {
    var deadline := box.now + budget;
    ghost var goal := WorkerGone(backoff, box.script(i).probes, 0, deadline, box.now, box.log);
    var k := 0;
    while true
      invariant goal == WorkerGone(backoff, box.script(i).probes, k, deadline, box.now, box.log)
      decreases Backoffs(deadline - box.now, backoff), if box.now < deadline then 1 else 0
    {
      var left := deadline - box.now;
      if left <= 0.0 {
        return false;
      }
      ghost var before := box.now;
      var seen := box.Probe(i, k, Min(PROBE_LIMIT, left));
      if seen {
        return true;
      }
      var nap := Min(backoff, Max(0.0, deadline - box.now));
      if nap <= 0.0 {
        return false;
      }
      ProbeLoopShrinks(backoff, deadline, before, box.now, nap);
      box.Sleep(nap);
      k := k + 1;
    }
  }

  /** The worker guard and, when it clears, the pause before re-invoking. */
  method GuardReinvocation(p: Policy, i: nat, deadline: real, box: Box) returns (gone: bool)
    requires p.probing
    modifies box
    ensures var (clear, after, seen) := Guard(p, box.script(i), deadline, old(box.now), old(box.log));
            && gone == clear && box.log == seen
            && box.now == if gone then after + Nap(p, deadline, after) else after
  {
    gone := WaitWorkerGone(i, p.backoff, Min(p.backoff * 3.0, Max(0.0, deadline - box.now)), box);
    if gone {
      var nap := Min(p.backoff, Max(0.0, deadline - box.now));
      if nap > 0.0 {
        box.Sleep(nap);
      }
    }
  }

  method RunWorker(p: Policy, box: Box) returns (v: Verdict)
    requires box.checkLimit == p.checkLimit && p.probing
    modifies box
    ensures (v, box.now, box.log)
         == Attempts(p, box.script, 0, old(box.now) + p.runTimeout, old(box.now), old(box.log))
  {
    var deadline := box.now + p.runTimeout;
    ghost var goal := Attempts(p, box.script, 0, deadline, box.now, box.log);
    for i := 0 to p.reattach + 1
      invariant i <= p.reattach ==> goal == Attempts(p, box.script, i, deadline, box.now, box.log)
      invariant i <= p.reattach
    {
      var verdict := TryWorker(p, i, deadline, box);
      if verdict.Some? {
        return verdict.value;
      }
    }
  }

  method TryWorker(p: Policy, i: nat, deadline: real, box: Box) returns (v: Option<Verdict>)
    requires i <= p.reattach && box.checkLimit == p.checkLimit && p.probing
    modifies box
    ensures (v, box.now, box.log) == OneAttempt(p, box.script, i, deadline, old(box.now), old(box.log))
    ensures v.None? ==> i < p.reattach
  {
    var left := deadline - box.now;
    if left <= 0.0 {
      return Some(OutOfTime);
    }
    var rc := box.Ssh(i, left);
    if rc != TRANSPORT_RC {
      return Some(Spoke(rc));
    }
    if i == p.reattach {
      return Some(LastAttempt);
    }
    var dead := box.CheckDead(i);
    if dead {
      return Some(HostDead);
    }
    var gone := GuardReinvocation(p, i, deadline, box);
    v := if gone then None else Some(WorkerMayRun);
  }

  // ---- the shared deadline

  /** The probe loop never outlives its budget, and all it learns is in its probes. */
  lemma {:induction false} ProbesKeepBudget(
      backoff: real, probes: nat -> Reply, k: nat, deadline: real, now: real, log: Log)
    requires now <= deadline
    ensures var (gone, after, seen) := WorkerGone(backoff, probes, k, deadline, now, log);
            && now <= after <= deadline && OnlyProbesAdded(log, seen, after)
            && (gone ==> |seen| > |log| && seen[|seen| - 1] == Probed(after, true))
    decreases Backoffs(deadline - now, backoff), if now < deadline then 1 else 0
  {
    if now < deadline && !probes(k).gone {
      var after := now + Clamp(probes(k).took, Min(PROBE_LIMIT, deadline - now));
      var nap := Min(backoff, Max(0.0, deadline - after));
      if nap > 0.0 {
        ProbeLoopShrinks(backoff, deadline, now, after, nap);
        ProbesKeepBudget(backoff, probes, k + 1, deadline, after + nap, log + [Probed(after, false)]);
      }
    }
  }

  ghost predicate OnlyProbesAdded(log: Log, seen: Log, upTo: real) {
    && log <= seen
    && forall j :: |log| <= j < |seen| ==> seen[j].Probed? && seen[j].at <= upTo
  }

  /** No probe takes longer than 30 seconds, and no pause between two longer than the backoff. */
  lemma {:induction false} ProbesAreShort(
      backoff: real, probes: nat -> Reply, k: nat, deadline: real, now: real, log: Log)
    ensures var (gone, after, seen) := WorkerGone(backoff, probes, k, deadline, now, log);
            && log <= seen
            && forall j :: |log| <= j < |seen| ==>
                 seen[j].Probed? && seen[j].at <= 30.0 + (if j == |log| then now else EndOf(seen[j - 1]) + backoff)
    decreases Backoffs(deadline - now, backoff), if now < deadline then 1 else 0
  {
    if now < deadline && !probes(k).gone {
      var after := now + Clamp(probes(k).took, Min(PROBE_LIMIT, deadline - now));
      var nap := Min(backoff, Max(0.0, deadline - after));
      if nap > 0.0 {
        ProbeLoopShrinks(backoff, deadline, now, after, nap);
        ProbesAreShort(backoff, probes, k + 1, deadline, after + nap, log + [Probed(after, false)]);
      }
    }
  }

  function EndOf(e: Event): real { if e.Ran? then e.run.end else e.at }

  /** The guard as a whole: no time past the deadline nor past three backoffs, one fresh GONE when
      it says yes. */
  lemma GuardKeepsDeadline(p: Policy, t: Try, deadline: real, now: real, log: Log)
    ensures var (gone, after, seen) := Guard(p, t, deadline, now, log);
            && now <= after <= Max(now, deadline) && OnlyProbesAdded(log, seen, after)
            && after - now <= Max(0.0, 3.0 * p.backoff)
            && (gone && p.probing ==> |seen| > |log| && seen[|seen| - 1] == Probed(after, true))
  {
    if p.probing {
      var budget := Min(p.backoff * 3.0, Max(0.0, deadline - now));
      if budget >= 0.0 {
        ProbesKeepBudget(p.backoff, t.probes, 0, now + budget, now, log);
      }
    }
  }

  function Runs(log: Log): seq<Invocation> {
    if log == [] then []
    else Runs(log[..|log| - 1]) + if log[|log| - 1].Ran? then [log[|log| - 1].run] else []
  }

  lemma {:induction false} RunsSkipProbes(log: Log, seen: Log, upTo: real)
    requires OnlyProbesAdded(log, seen, upTo)
    ensures Runs(seen) == Runs(log)
    decreases |seen|
  {
    if |seen| == |log| {
      assert seen == log;
    } else {
      var n := |seen| - 1;
      assert log <= seen[..n];
      RunsSkipProbes(log, seen[..n], upTo);
    }
  }

  lemma RunsAdd(log: Log, run: Invocation)
    ensures Runs(log + [Ran(run)]) == Runs(log) + [run]
  {
    assert (log + [Ran(run)])[..|log|] == log;
  }

  /** Attempt j of a call: what it was granted, and why there was another after it. */
  ghost predicate RunOk(script: Script, deadline: real, runs: seq<Invocation>, j: nat)
    requires j < |runs|
  {
    && runs[j] == Run(script(j), runs[j].start, deadline - runs[j].start)
    && runs[j].end <= deadline
    && (j + 1 < |runs| ==> runs[j].rc == TRANSPORT_RC && !script(j).dead && runs[j].end <= runs[j + 1].start)
  }

  ghost predicate CallOk(script: Script, deadline: real, runs: seq<Invocation>) {
    forall j :: 0 <= j < |runs| ==> RunOk(script, deadline, runs, j)
  }

  /** A call in progress: i attempts so far, the last of them a transport failure over a host
      not known dead. */
  ghost predicate Underway(script: Script, deadline: real, i: nat, now: real, runs: seq<Invocation>) {
    && |runs| == i && CallOk(script, deadline, runs)
    && (i > 0 ==> runs[i - 1].rc == TRANSPORT_RC && !script(i - 1).dead && runs[i - 1].end <= now)
  }

  lemma AttemptExtends(script: Script, deadline: real, i: nat, now: real, runs: seq<Invocation>)
    returns (run: Invocation)
    requires Underway(script, deadline, i, now, runs) && now < deadline
    ensures run == Run(script(i), now, deadline - now)
    ensures CallOk(script, deadline, runs + [run]) && now <= run.end <= deadline
  {
    run := Run(script(i), now, deadline - now);
    forall j | 0 <= j < i + 1 ensures RunOk(script, deadline, runs + [run], j) {
      assert j < i ==> RunOk(script, deadline, runs, j);
    }
  }

  /** How a call can end, and what that says about its attempts. */
  ghost predicate Ended(p: Policy, script: Script, deadline: real, v: Verdict, after: real, runs: seq<Invocation>) {
    && CallOk(script, deadline, runs) && |runs| <= p.reattach + 1
    && (v.Spoke? <==> runs != [] && runs[|runs| - 1].rc != 255) && (v.Spoke? ==> v.rc == runs[|runs| - 1].rc)
    && (v.LastAttempt? <==> |runs| == p.reattach + 1 && runs[|runs| - 1].rc == 255)
    && (v.HostDead? <==> 0 < |runs| <= p.reattach && runs[|runs| - 1].rc == 255 && script(|runs| - 1).dead)
    && (v.Spoke? || v.LastAttempt? ==> after == runs[|runs| - 1].end)
    && (v.OutOfTime? ==> after >= deadline)
    && (v.WorkerMayRun? ==> p.probing)
    && (v.SleepRaised? ==> !p.probing && p.backoff < 0.0)
  }

  /** The longest a look at the provider's status can run past the deadline. */
  function Overrun(p: Policy): real { Max(0.0, p.checkLimit) }

  lemma AttemptKeepsTime(p: Policy, script: Script, i: nat, deadline: real, now: real, log: Log)
    ensures now <= OneAttempt(p, script, i, deadline, now, log).1 <= Max(now, deadline + Overrun(p))
  {
    if now < deadline {
      var run := Run(script(i), now, deadline - now);
      var checked := run.end + Clamp(script(i).checkTook, p.checkLimit);
      GuardKeepsDeadline(p, script(i), deadline, checked, log + [Ran(run)]);
    }
  }

  /** What one attempt adds to the call's invocations, and its effect on the call. */
  lemma AttemptRuns(p: Policy, script: Script, i: nat, deadline: real, now: real, log: Log)
    requires now < deadline
    ensures Runs(OneAttempt(p, script, i, deadline, now, log).2) == Runs(log) + [Run(script(i), now, deadline - now)]
    ensures OneAttempt(p, script, i, deadline, now, log).1 >= Run(script(i), now, deadline - now).end
  {
    var run := Run(script(i), now, deadline - now);
    RunsAdd(log, run);
    var checked := run.end + Clamp(script(i).checkTook, p.checkLimit);
    var g := Guard(p, script(i), deadline, checked, log + [Ran(run)]);
    GuardKeepsDeadline(p, script(i), deadline, checked, log + [Ran(run)]);
    RunsSkipProbes(log + [Ran(run)], g.2, g.1);
  }

  /** One attempt keeps the call in order, whether it ends it or not. */
  lemma AttemptStaysInOrder(p: Policy, script: Script, i: nat, deadline: real, now: real, log: Log)
    requires i <= p.reattach && Underway(script, deadline, i, now, Runs(log))
    ensures var (v, after, seen) := OneAttempt(p, script, i, deadline, now, log);
            && (v.Some? ==> Ended(p, script, deadline, v.value, after, Runs(seen)))
            && (v.None? ==> i < p.reattach && Underway(script, deadline, i + 1, after, Runs(seen)))
  {
    if now < deadline {
      var run := AttemptExtends(script, deadline, i, now, Runs(log));
      AttemptRuns(p, script, i, deadline, now, log);
    }
  }

  lemma {:induction false} AttemptsEnd(p: Policy, script: Script, i: nat, deadline: real, now: real, log: Log)
    requires i <= p.reattach && Underway(script, deadline, i, now, Runs(log))
    ensures var (v, after, seen) := Attempts(p, script, i, deadline, now, log);
            && now <= after <= Max(now, deadline + Overrun(p))
            && Ended(p, script, deadline, v, after, Runs(seen))
    decreases p.reattach - i
  {
    AttemptStaysInOrder(p, script, i, deadline, now, log);
    AttemptKeepsTime(p, script, i, deadline, now, log);
    var one := OneAttempt(p, script, i, deadline, now, log);
    if one.0.None? {
      AttemptsEnd(p, script, i + 1, deadline, one.1, one.2);
    }
  }

  /** One call, whatever the box, the channel and the provider do: it takes at most its
      run_timeout plus one dead-check, grants never grow from attempt to attempt, an attempt
      follows another only after a transport failure on a host not confirmed dead, there are at
      most 1 + reattach attempts, and the payload's own exit code is handed back. The verdict is
      told by the last attempt: what it said, that it was the last allowed, or its dead host. */
  lemma DeadlineIsShared(p: Policy, script: Script, start: real)
    ensures var (v, after, log) := Attempts(p, script, 0, start + p.runTimeout, start, []);
            && 0.0 <= after - start <= Max(0.0, p.runTimeout + Overrun(p))
            && |Runs(log)| <= p.reattach + 1
            && (forall j :: 0 <= j < |Runs(log)| - 1 ==>
                  && Runs(log)[j].rc == 255 && !script(j).dead
                  && Runs(log)[j + 1].granted <= Runs(log)[j].granted)
            && (forall j :: 0 <= j < |Runs(log)| ==> RunTells(script(j), Runs(log)[j]))
            && Ended(p, script, start + p.runTimeout, v, after, Runs(log))
            && (ExitCode(v) == None <==> v.SleepRaised?) && (v.Spoke? ==> ExitCode(v) == Some(v.rc))
            && (!v.Spoke? && !v.SleepRaised? ==> ExitCode(v) == Some(if v.OutOfTime? then 124 else 255))
  {
    var deadline := start + p.runTimeout;
    AttemptsEnd(p, script, 0, deadline, start, []);
    var runs := Runs(Attempts(p, script, 0, deadline, start, []).2);
    CallTells(script, deadline, runs);
  }

  lemma CallTells(script: Script, deadline: real, runs: seq<Invocation>)
    requires CallOk(script, deadline, runs)
    ensures forall j :: 0 <= j < |runs| - 1 ==>
              runs[j].rc == 255 && !script(j).dead && runs[j + 1].granted <= runs[j].granted
    ensures forall j :: 0 <= j < |runs| ==> RunTells(script(j), runs[j])
  {
    forall j | 0 <= j < |runs| - 1
      ensures runs[j].rc == 255 && !script(j).dead && runs[j + 1].granted <= runs[j].granted
    {
      assert RunOk(script, deadline, runs, j) && RunOk(script, deadline, runs, j + 1);
    }
    forall j | 0 <= j < |runs| ensures RunTells(script(j), runs[j]) {
      assert RunOk(script, deadline, runs, j);
    }
  }

  /** An attempt runs for its time or to the end of its grant, where it is cut off with 124. */
  predicate RunTells(t: Try, run: Invocation) {
    && (run.cut <==> t.took > run.granted) && run.rc == (if run.cut then 124 else t.rc)
    && (run.granted >= 0.0 ==> run.end - run.start == if run.cut then run.granted else Max(0.0, t.took))
    && run.workerEnds == t.workerEnds
  }

  // ---- when a second attempt can be made at all

  /** One call from scratch. */
  function Call(p: Policy, script: Script, start: real): (Verdict, real, Log) {
    Attempts(p, script, 0, start + p.runTimeout, start, [])
  }

  /** The first attempt ran into a transport failure on a host not confirmed dead, and was not
      the last one allowed. */
  predicate ReattachDue(p: Policy, script: Script, start: real) {
    && p.runTimeout > 0.0 && p.reattach > 0
    && Run(script(0), start, p.runTimeout).rc == TRANSPORT_RC && !script(0).dead
  }

  lemma FirstAttempt(p: Policy, script: Script, start: real)
    ensures start + p.runTimeout - start == p.runTimeout
    ensures OneAttempt(p, script, 0, start + p.runTimeout, start, []).0.None? ==>
              ReattachDue(p, script, start) && p.backoff >= 0.0
  {
  }

  /** A call raises exactly when it has no worker guard, its backoff is negative, and a reattach
      is due after the first attempt. */
  lemma SleepRaisedExactly(p: Policy, script: Script, start: real)
    ensures Call(p, script, start).0 == SleepRaised
       <==> !p.probing && p.backoff < 0.0 && ReattachDue(p, script, start)
  {
    FirstAttempt(p, script, start);
    if OneAttempt(p, script, 0, start + p.runTimeout, start, []).0.None? {
      AttemptStaysInOrder(p, script, 0, start + p.runTimeout, start, []);
      var one := OneAttempt(p, script, 0, start + p.runTimeout, start, []);
      AttemptsRaiseNothing(p, script, 1, start + p.runTimeout, one.1, one.2);
    }
  }

  lemma {:induction false} AttemptsRaiseNothing(p: Policy, script: Script, i: nat, deadline: real, now: real, log: Log)
    requires i <= p.reattach && (p.probing || p.backoff >= 0.0)
    ensures Attempts(p, script, i, deadline, now, log).0 != SleepRaised
    decreases p.reattach - i
  {
    var one := OneAttempt(p, script, i, deadline, now, log);
    if one.0.None? {
      AttemptsRaiseNothing(p, script, i + 1, deadline, one.1, one.2);
    }
  }

  /** The pause fits before the deadline; under a worker guard it must also leave the guard time
      for a probe. */
  predicate PauseFits(p: Policy) {
    (if p.probing then 0.0 < p.backoff else 0.0 <= p.backoff) && p.backoff < p.runTimeout
  }

  /** A channel that drops at once, a box with no worker left, and an answer to the second attempt. */
  function DropsOnce(): Script {
    (j: nat) => Try(0.0, if j == 0 then TRANSPORT_RC else 0, 0.0, 0.0, false, (k: nat) => Reply(0.0, true))
  }

  /** Reattaching happens on some box exactly when it is allowed and the pause fits: a backoff of
      zero or less switches it off under a worker guard, and so does one of run_timeout or more. */
  lemma ReattachIsPossibleExactly(p: Policy, start: real)
    ensures (exists script :: |Runs(Call(p, script, start).2)| >= 2) <==> p.reattach > 0 && PauseFits(p)
  {
    if p.reattach > 0 && PauseFits(p) {
      SecondAttemptRuns(p, start);
    } else {
      forall script ensures |Runs(Call(p, script, start).2)| <= 1 {
        OneInvocation(p, script, start);
      }
    }
  }

  lemma SecondAttemptRuns(p: Policy, start: real)
    requires p.reattach > 0 && PauseFits(p)
    ensures |Runs(Call(p, DropsOnce(), start).2)| == 2
  {
    var deadline, script := start + p.runTimeout, DropsOnce();
    var one := OneAttempt(p, script, 0, deadline, start, []);
    AttemptRuns(p, script, 0, deadline, start, []);
    FirstGuardClears(p, script(0), deadline, start, [] + [Ran(Run(script(0), start, deadline - start))]);
    assert one.0.None? && one.1 == start + p.backoff;
    AttemptRuns(p, script, 1, deadline, one.1, one.2);
    assert Attempts(p, script, 1, deadline, one.1, one.2).2 == OneAttempt(p, script, 1, deadline, one.1, one.2).2;
  }

  lemma FirstGuardClears(p: Policy, t: Try, deadline: real, now: real, log: Log)
    requires PauseFits(p) && deadline == now + p.runTimeout && t.probes(0) == Reply(0.0, true)
    ensures Guard(p, t, deadline, now, log).0 && Guard(p, t, deadline, now, log).1 == now
  {
  }

  lemma OneInvocation(p: Policy, script: Script, start: real)
    requires p.reattach == 0 || !PauseFits(p)
    ensures |Runs(Call(p, script, start).2)| <= 1
  {
    var deadline := start + p.runTimeout;
    if start < deadline {
      AttemptRuns(p, script, 0, deadline, start, []);
      OnlyPauseUsesItAll(p, script, start);
      OnlyAttempt(p, script, deadline, start, OneAttempt(p, script, 0, deadline, start, []));
    } else {
      NoTimeNoAttempt(p, script, 0, deadline, start, []);
    }
  }

  lemma OnlyPauseUsesItAll(p: Policy, script: Script, start: real)
    requires p.reattach == 0 || !PauseFits(p)
    ensures var one := OneAttempt(p, script, 0, start + p.runTimeout, start, []);
            one.0.None? ==> p.reattach > 0 && one.1 >= start + p.runTimeout
  {
    if OneAttempt(p, script, 0, start + p.runTimeout, start, []).0.None? {
      FirstAttempt(p, script, start);
      PauseUsesItAll(p, script, start);
    }
  }

  lemma OnlyAttempt(p: Policy, script: Script, deadline: real, now: real, one: (Option<Verdict>, real, Log))
    requires one == OneAttempt(p, script, 0, deadline, now, [])
    requires one.0.None? ==> p.reattach > 0 && one.1 >= deadline
    ensures Attempts(p, script, 0, deadline, now, []).2 == one.2
  {
    if one.0.None? {
      NoTimeNoAttempt(p, script, 1, deadline, one.1, one.2);
    }
  }

  lemma NoTimeNoAttempt(p: Policy, script: Script, i: nat, deadline: real, now: real, log: Log)
    requires i <= p.reattach && now >= deadline
    ensures Attempts(p, script, i, deadline, now, log).2 == log
  {
  }

  lemma PauseUsesItAll(p: Policy, script: Script, start: real)
    requires !PauseFits(p) && OneAttempt(p, script, 0, start + p.runTimeout, start, []).0.None?
    ensures OneAttempt(p, script, 0, start + p.runTimeout, start, []).1 >= start + p.runTimeout
  {
    var deadline := start + p.runTimeout;
    var run := Run(script(0), start, deadline - start);
    var checked := run.end + Clamp(script(0).checkTook, p.checkLimit);
    GuardKeepsDeadline(p, script(0), deadline, checked, [] + [Ran(run)]);
  }

  // ---- one worker at a time

  /** Probes tell the truth: GONE means every worker started so far has ended. */
  ghost predicate Truthful(log: Log) {
    forall r, q :: 0 <= r < q < |log| && log[r].Ran? && log[q].Probed? && log[q].gone ==>
      log[r].run.workerEnds <= log[q].at
  }

  /** No two workers are on the box at the same time. */
  ghost predicate NeverTwoWorkers(log: Log) {
    forall r, s :: 0 <= r < s < |log| && log[r].Ran? && log[s].Ran? ==> log[r].run.workerEnds <= log[s].run.start
  }

  ghost predicate Cleared(log: Log, now: real) {
    log == [] || (log[|log| - 1].Probed? && log[|log| - 1].gone && log[|log| - 1].at <= now)
  }

  /** Each invocation but the first follows a GONE directly. */
  ghost predicate Guarded(log: Log) {
    forall s :: 0 <= s < |log| && log[s].Ran? ==> Cleared(log[..s], log[s].run.start)
  }

  lemma GuardedExtends(log: Log, run: Invocation, seen: Log, upTo: real)
    requires Guarded(log) && Cleared(log, run.start) && OnlyProbesAdded(log + [Ran(run)], seen, upTo)
    ensures Guarded(seen)
  {
    forall s | 0 <= s < |seen| && seen[s].Ran? ensures Cleared(seen[..s], seen[s].run.start) {
      assert s <= |log| && seen[..s] == log[..s];
      assert seen[|log|] == Ran(run) && log[..|log|] == log;
    }
  }

  lemma AttemptIsGuarded(p: Policy, script: Script, i: nat, deadline: real, now: real, log: Log)
    requires p.probing && Guarded(log) && Cleared(log, now)
    ensures var (v, after, seen) := OneAttempt(p, script, i, deadline, now, log);
            Guarded(seen) && (v.None? ==> Cleared(seen, after))
  {
    if now < deadline {
      var run := Run(script(i), now, deadline - now);
      var checked := run.end + Clamp(script(i).checkTook, p.checkLimit);
      GuardedExtends(log, run, log + [Ran(run)], run.end);
      GuardIsGuarded(p, script(i), deadline, checked, log, run);
    }
  }

  lemma GuardIsGuarded(p: Policy, t: Try, deadline: real, now: real, log: Log, run: Invocation)
    requires p.probing && Guarded(log) && Cleared(log, run.start)
    ensures var (gone, after, seen) := Guard(p, t, deadline, now, log + [Ran(run)]);
            Guarded(seen) && (gone ==> Cleared(seen, after))
  {
    GuardKeepsDeadline(p, t, deadline, now, log + [Ran(run)]);
    var g := Guard(p, t, deadline, now, log + [Ran(run)]);
    GuardedExtends(log, run, g.2, g.1);
  }

  lemma {:induction false} ReinvocationsAreGuarded(p: Policy, script: Script, i: nat, deadline: real, now: real,
                                                   log: Log)
    requires i <= p.reattach && p.probing && Guarded(log) && Cleared(log, now)
    ensures Guarded(Attempts(p, script, i, deadline, now, log).2)
    decreases p.reattach - i
  {
    AttemptIsGuarded(p, script, i, deadline, now, log);
    var one := OneAttempt(p, script, i, deadline, now, log);
    if one.0.None? {
      ReinvocationsAreGuarded(p, script, i + 1, deadline, one.1, one.2);
    }
  }

  /** Within one call, with truthful probes, a worker is started only when none is running. */
  lemma OneWorkerPerCall(p: Policy, script: Script, start: real)
    requires p.probing
    ensures var log := Attempts(p, script, 0, start + p.runTimeout, start, []).2;
            Truthful(log) ==> NeverTwoWorkers(log)
  {
    var log := Attempts(p, script, 0, start + p.runTimeout, start, []).2;
    ReinvocationsAreGuarded(p, script, 0, start + p.runTimeout, start, []);
    if Truthful(log) {
      forall r, s | 0 <= r < s < |log| && log[r].Ran? && log[s].Ran? ensures log[r].run.workerEnds <= log[s].run.start {
        assert Cleared(log[..s], log[s].run.start);
        assert log[..s][s - 1] == log[s - 1];
      }
    }
  }

  // ---- the next config on the same host

  /** A call only adds to the log, and what it does depends on no earlier entry. */
  lemma {:induction false} ProbesOnlyAdd(
      backoff: real, probes: nat -> Reply, k: nat, deadline: real, now: real, log: Log, seen: Log)
    ensures var (gone, after, more) := WorkerGone(backoff, probes, k, deadline, now, seen);
            WorkerGone(backoff, probes, k, deadline, now, log + seen) == (gone, after, log + more)
    decreases Backoffs(deadline - now, backoff), if now < deadline then 1 else 0
  {
    if now < deadline {
      var after := now + Clamp(probes(k).took, Min(PROBE_LIMIT, deadline - now));
      var entry := Probed(after, probes(k).gone);
      assert log + seen + [entry] == log + (seen + [entry]);
      var nap := Min(backoff, Max(0.0, deadline - after));
      if !probes(k).gone && nap > 0.0 {
        ProbeLoopShrinks(backoff, deadline, now, after, nap);
        ProbesOnlyAdd(backoff, probes, k + 1, deadline, after + nap, log, seen + [entry]);
      }
    }
  }

  lemma AttemptOnlyAdds(p: Policy, script: Script, i: nat, deadline: real, now: real, log: Log, seen: Log)
    ensures var (v, after, more) := OneAttempt(p, script, i, deadline, now, seen);
            OneAttempt(p, script, i, deadline, now, log + seen) == (v, after, log + more)
  {
    if now < deadline {
      var run := Run(script(i), now, deadline - now);
      assert log + seen + [Ran(run)] == log + (seen + [Ran(run)]);
      if p.probing {
        var checked := run.end + Clamp(script(i).checkTook, p.checkLimit);
        ProbesOnlyAdd(p.backoff, script(i).probes, 0,
                      checked + Min(p.backoff * 3.0, Max(0.0, deadline - checked)), checked, log, seen + [Ran(run)]);
      }
    }
  }

  lemma {:induction false} CallsOnlyAdd(p: Policy, script: Script, i: nat, deadline: real, now: real, log: Log,
                                        seen: Log)
    requires i <= p.reattach
    ensures var (v, after, more) := Attempts(p, script, i, deadline, now, seen);
            Attempts(p, script, i, deadline, now, log + seen) == (v, after, log + more)
    decreases p.reattach - i
  {
    AttemptOnlyAdds(p, script, i, deadline, now, log, seen);
    var one := OneAttempt(p, script, i, deadline, now, seen);
    if one.0.None? {
      AttemptStops(p, script, i, deadline, now, seen);
      CallsOnlyAdd(p, script, i + 1, deadline, one.1, log, one.2);
    }
  }

  lemma AttemptStops(p: Policy, script: Script, i: nat, deadline: real, now: real, log: Log)
    requires i <= p.reattach && OneAttempt(p, script, i, deadline, now, log).0.None?
    ensures i < p.reattach
  {
  }

  /** Two configs, one after the other: after a host confirmed dead the executor moves to
      another host; otherwise the second call starts some time after the first ended. */
  function TwoConfigs(p: Policy, one: Script, two: Script, start: real, gap: real): Log {
    var (v, after, log) := Call(p, one, start);
    if v.HostDead? then log else Attempts(p, two, 0, after + gap + p.runTimeout, after + gap, log).2
  }

  lemma JointLog(p: Policy, one: Script, two: Script, start: real, gap: real)
    ensures var (v, after, log) := Call(p, one, start);
            TwoConfigs(p, one, two, start, gap) == if v.HostDead? then log else log + Call(p, two, after + gap).2
  {
    var (v, after, log) := Call(p, one, start);
    CallAfter(p, two, after + gap, log);
  }

  lemma CallAfter(p: Policy, script: Script, start: real, log: Log)
    ensures Attempts(p, script, 0, start + p.runTimeout, start, log).2 == log + Call(p, script, start).2
  {
    CallsOnlyAdd(p, script, 0, start + p.runTimeout, start, log, []);
    assert log + [] == log;
  }

  /** An exit code that is the worker's own, not ssh's 255 nor that of a channel cut off, means
      that the worker has ended. */
  ghost predicate Honest(log: Log) {
    forall r :: 0 <= r < |log| && log[r].Ran? && log[r].run.rc != TRANSPORT_RC && !log[r].run.cut ==>
      log[r].run.workerEnds <= log[r].run.end
  }

  /** After these verdicts of the first call the next config may start: the worker's own exit
      code came back, or time ran out before an attempt, which follows a GONE. */
  predicate Finished(v: Verdict) {
    v.HostDead? || v.OutOfTime? || (v.Spoke? && v.rc != TIMEOUT_RC)
  }

  /** No honest box with truthful probes on which the first call ends like that ever has two
      workers, whatever the second config does and whenever it starts. */
  ghost predicate NeverOverlapsAfter(p: Policy, v: Verdict) {
    forall one, two, start, gap :: 0.0 <= gap && Call(p, one, start).0 == v ==>
      NoOverlap(TwoConfigs(p, one, two, start, gap))
  }

  ghost predicate NoOverlap(log: Log) {
    Honest(log) && Truthful(log) ==> NeverTwoWorkers(log)
  }

  // ---- after a finished call

  /** Every worker of the log has ended by now. */
  ghost predicate AllEnded(log: Log, now: real) {
    forall r :: 0 <= r < |log| && log[r].Ran? ==> log[r].run.workerEnds <= now
  }

  lemma ClearedMeansEnded(log: Log, now: real)
    requires Truthful(log) && Cleared(log, now)
    ensures AllEnded(log, now)
  {
    if log != [] {
      var q := |log| - 1;
      forall r | 0 <= r < |log| && log[r].Ran? ensures log[r].run.workerEnds <= now {
        assert r < q && log[q].Probed? && log[q].gone;
      }
    }
  }

  /** How a finished call leaves its log: cleared by a GONE, or by one and the worker's own exit. */
  ghost predicate EndsClear(v: Verdict, after: real, log: Log) {
    && (v.OutOfTime? ==> Cleared(log, after))
    && (v.Spoke? ==>
          && log != [] && log[|log| - 1].Ran? && log[|log| - 1].run.rc == v.rc != TRANSPORT_RC
          && (log[|log| - 1].run.cut ==> v.rc == TIMEOUT_RC)
          && log[|log| - 1].run.start <= log[|log| - 1].run.end == after
          && Cleared(log[..|log| - 1], log[|log| - 1].run.start))
  }

  lemma AttemptEndsClear(p: Policy, script: Script, i: nat, deadline: real, now: real, log: Log)
    requires p.probing && Cleared(log, now)
    ensures var (v, after, seen) := OneAttempt(p, script, i, deadline, now, log);
            && now <= after && (v.Some? ==> EndsClear(v.value, after, seen)) && (v.None? ==> Cleared(seen, after))
  {
    if now < deadline {
      var run := Run(script(i), now, deadline - now);
      var checked := run.end + Clamp(script(i).checkTook, p.checkLimit);
      GuardKeepsDeadline(p, script(i), deadline, checked, log + [Ran(run)]);
      assert (log + [Ran(run)])[..|log|] == log;
    }
  }

  lemma {:induction false} CallEndsClear(p: Policy, script: Script, i: nat, deadline: real, now: real, log: Log)
    requires i <= p.reattach && p.probing && Cleared(log, now)
    ensures var (v, after, seen) := Attempts(p, script, i, deadline, now, log);
            now <= after && EndsClear(v, after, seen)
    decreases p.reattach - i
  {
    AttemptEndsClear(p, script, i, deadline, now, log);
    var one := OneAttempt(p, script, i, deadline, now, log);
    if one.0.None? {
      CallEndsClear(p, script, i + 1, deadline, one.1, one.2);
    }
  }

  lemma FinishedMeansEnded(v: Verdict, after: real, log: Log)
    requires Finished(v) && !v.HostDead? && EndsClear(v, after, log) && Honest(log) && Truthful(log)
    ensures AllEnded(log, after)
  {
    if v.OutOfTime? {
      ClearedMeansEnded(log, after);
    } else {
      var n := |log| - 1;
      assert Truthful(log[..n]);
      ClearedMeansEnded(log[..n], log[n].run.start);
      forall r | 0 <= r < |log| && log[r].Ran? ensures log[r].run.workerEnds <= after {
        if r < n {
          assert log[..n][r] == log[r];
        }
      }
    }
  }

  /** Every attempt starts no earlier than that. */
  ghost predicate StartsFrom(log: Log, now: real) {
    forall s :: 0 <= s < |log| && log[s].Ran? ==> now <= log[s].run.start
  }

  lemma {:induction false} CallStartsFrom(p: Policy, script: Script, i: nat, deadline: real, now: real, log: Log,
                                          from: real)
    requires i <= p.reattach && from <= now && StartsFrom(log, from)
    ensures StartsFrom(Attempts(p, script, i, deadline, now, log).2, from)
    decreases p.reattach - i
  {
    var one := OneAttempt(p, script, i, deadline, now, log);
    if now < deadline {
      var run := Run(script(i), now, deadline - now);
      var checked := run.end + Clamp(script(i).checkTook, p.checkLimit);
      GuardKeepsDeadline(p, script(i), deadline, checked, log + [Ran(run)]);
      assert StartsFrom(log + [Ran(run)], from);
      assert StartsFrom(one.2, from) && now <= one.1;
    }
    if one.0.None? {
      CallStartsFrom(p, script, i + 1, deadline, one.1, one.2, from);
    }
  }

  lemma FinishedNeverOverlaps(p: Policy, one: Script, two: Script, start: real, gap: real)
    requires p.probing && 0.0 <= gap && Finished(Call(p, one, start).0)
    ensures NoOverlap(TwoConfigs(p, one, two, start, gap))
  {
    var (v, after, first) := Call(p, one, start);
    JointLog(p, one, two, start, gap);
    OneWorkerPerCall(p, one, start);
    if !v.HostDead? {
      CallEndsClear(p, one, 0, start + p.runTimeout, start, []);
      SecondStartsAfter(p, two, after, gap);
      FinishedLogsNeverOverlap(v, after, first, Call(p, two, after + gap).2);
    }
  }

  lemma SecondStartsAfter(p: Policy, two: Script, after: real, gap: real)
    requires p.probing && 0.0 <= gap
    ensures var second := Call(p, two, after + gap).2;
            StartsFrom(second, after) && (Truthful(second) ==> NeverTwoWorkers(second))
  {
    OneWorkerPerCall(p, two, after + gap);
    CallStartsFrom(p, two, 0, after + gap + p.runTimeout, after + gap, [], after);
  }

  lemma FinishedLogsNeverOverlap(v: Verdict, after: real, first: Log, second: Log)
    requires Finished(v) && !v.HostDead? && EndsClear(v, after, first) && StartsFrom(second, after)
    requires (Truthful(first) ==> NeverTwoWorkers(first)) && (Truthful(second) ==> NeverTwoWorkers(second))
    ensures NoOverlap(first + second)
  {
    if Honest(first + second) && Truthful(first + second) {
      PartsAreTruthful(first, second);
      FinishedMeansEnded(v, after, first);
      SideBySide(first, second, after);
    }
  }

  lemma PartsAreTruthful(first: Log, second: Log)
    requires Honest(first + second) && Truthful(first + second)
    ensures Honest(first) && Truthful(first) && Truthful(second)
  {
    var log := first + second;
    assert forall r :: 0 <= r < |first| ==> log[r] == first[r];
    assert forall r :: 0 <= r < |second| ==> log[|first| + r] == second[r];
    forall r, q | 0 <= r < q < |second| && second[r].Ran? && second[q].Probed? && second[q].gone
      ensures second[r].run.workerEnds <= second[q].at
    {
      assert log[|first| + r].Ran? && log[|first| + q].Probed? && log[|first| + q].gone;
    }
  }

  lemma SideBySide(first: Log, second: Log, now: real)
    requires NeverTwoWorkers(first) && NeverTwoWorkers(second) && AllEnded(first, now) && StartsFrom(second, now)
    ensures NeverTwoWorkers(first + second)
  {
    var log := first + second;
    forall r, s | 0 <= r < s < |log| && log[r].Ran? && log[s].Ran? ensures log[r].run.workerEnds <= log[s].run.start {
      if r >= |first| {
        assert second[r - |first|] == log[r] && second[s - |first|] == log[s];
      } else if s >= |first| {
        assert first[r] == log[r] && second[s - |first|] == log[s];
      }
    }
  }

  // ---- after any other call

  /** Only what a script says from attempt i on matters from there. */
  lemma {:induction false} SameFrom(p: Policy, a: Script, b: Script, i: nat, deadline: real, now: real, log: Log)
    requires i <= p.reattach && forall j: nat :: i <= j ==> a(j) == b(j)
    ensures Attempts(p, a, i, deadline, now, log) == Attempts(p, b, i, deadline, now, log)
    decreases p.reattach - i
  {
    var one := OneAttempt(p, a, i, deadline, now, log);
    assert one == OneAttempt(p, b, i, deadline, now, log);
    if one.0.None? {
      SameFrom(p, a, b, i + 1, deadline, one.1, one.2);
    }
  }

  /** Entry k is a worker that outlives its channel, unseen by any later GONE; all others ended at once. */
  ghost predicate Survives(log: Log, k: nat, early: real, far: real) {
    && k < |log| && log[k].Ran? && log[k].run.workerEnds == far && (log[k].run.rc == TRANSPORT_RC || log[k].run.cut)
    && (forall r :: 0 <= r < |log| && r != k && log[r].Ran? ==> log[r].run.workerEnds == early <= log[r].run.end)
    && (forall q :: 0 <= q < |log| && log[q].Probed? ==> early <= log[q].at && (k < q ==> !log[q].gone))
  }

  lemma {:induction false} DeniedProbesSayNothing(
      backoff: real, probes: nat -> Reply, k: nat, deadline: real, now: real, log: Log)
    ensures var (gone, after, seen) := WorkerGone(backoff, probes, k, deadline, now, log);
            && log <= seen
            && (forall q :: |log| <= q < |seen| ==> seen[q].Probed? && now <= seen[q].at)
            && (!gone ==> forall q :: |log| <= q < |seen| ==> !seen[q].gone)
    decreases Backoffs(deadline - now, backoff), if now < deadline then 1 else 0
  {
    if now < deadline && !probes(k).gone {
      var after := now + Clamp(probes(k).took, Min(PROBE_LIMIT, deadline - now));
      var nap := Min(backoff, Max(0.0, deadline - after));
      if nap > 0.0 {
        ProbeLoopShrinks(backoff, deadline, now, after, nap);
        var more := log + [Probed(after, false)];
        DeniedProbesSayNothing(backoff, probes, k + 1, deadline, after + nap, more);
        var (gone, later, seen) := WorkerGone(backoff, probes, k + 1, deadline, after + nap, more);
        assert seen[|log|] == more[|log|] == Probed(after, false);
      }
    }
  }

  lemma GuardRetold(p: Policy, t: Try, deadline: real, now: real, run: Invocation, retold: Invocation)
    requires p.probing
    ensures var (gone, after, seen) := Guard(p, t, deadline, now, [Ran(run)]);
            |seen| >= 1 && Guard(p, t, deadline, now, [Ran(retold)]) == (gone, after, [Ran(retold)] + seen[1..])
  {
    var until := now + Min(p.backoff * 3.0, Max(0.0, deadline - now));
    assert [Ran(run)] + [] == [Ran(run)] && [Ran(retold)] + [] == [Ran(retold)];
    ProbesOnlyAdd(p.backoff, t.probes, 0, until, now, [Ran(run)], []);
    ProbesOnlyAdd(p.backoff, t.probes, 0, until, now, [Ran(retold)], []);
  }

  /** Only the worker's end changes: the attempt goes the same way. */
  lemma RetoldAttempt(p: Policy, one: Script, other: Script, i: nat, deadline: real, now: real, ends: real)
    requires now < deadline && other(i) == one(i).(workerEnds := ends) && p.probing
    ensures OneAttempt(p, other, i, deadline, now, []).0 == OneAttempt(p, one, i, deadline, now, []).0
    ensures OneAttempt(p, other, i, deadline, now, []).1 == OneAttempt(p, one, i, deadline, now, []).1
  {
    var run, retold := Run(one(i), now, deadline - now), Run(other(i), now, deadline - now);
    assert [] + [Ran(run)] == [Ran(run)] && [] + [Ran(retold)] == [Ran(retold)];
    GuardRetold(p, one(i), deadline, run.end + Clamp(one(i).checkTook, p.checkLimit), run, retold);
    assert Guard(p, other(i), deadline, run.end + Clamp(one(i).checkTook, p.checkLimit), [Ran(retold)])
        == Guard(p, one(i), deadline, run.end + Clamp(one(i).checkTook, p.checkLimit), [Ran(retold)]);
  }

  /** What follows an attempt in its own log are probes, all denied when it does not clear. */
  lemma AttemptLog(p: Policy, script: Script, i: nat, deadline: real, now: real)
    requires now < deadline && p.probing
    ensures var (v, after, log) := OneAttempt(p, script, i, deadline, now, []);
            && |log| >= 1 && log[0] == Ran(Run(script(i), now, deadline - now))
            && (forall q :: 1 <= q < |log| ==> log[q].Probed? && now <= log[q].at)
            && (v.Some? ==> forall q :: 1 <= q < |log| ==> !log[q].gone)
  {
    var run := Run(script(i), now, deadline - now);
    var checked := run.end + Clamp(script(i).checkTook, p.checkLimit);
    var until := checked + Min(p.backoff * 3.0, Max(0.0, deadline - checked));
    assert [] + [Ran(run)] == [Ran(run)];
    DeniedProbesSayNothing(p.backoff, script(i).probes, 0, until, checked, [Ran(run)]);
  }

  /** Every worker of the log ended at that time, before its channel and before any probe. */
  ghost predicate EndedEarly(log: Log, early: real) {
    && (forall r :: 0 <= r < |log| && log[r].Ran? ==> log[r].run.workerEnds == early <= log[r].run.end)
    && (forall q :: 0 <= q < |log| && log[q].Probed? ==> early <= log[q].at)
  }

  lemma SurvivesLater(front: Log, log: Log, k: nat, early: real, far: real)
    requires Survives(log, k, early, far) && EndedEarly(front, early)
    ensures Survives(front + log, |front| + k, early, far)
  {
    var s := front + log;
    forall r | 0 <= r < |s| && r != |front| + k && s[r].Ran? ensures s[r].run.workerEnds == early <= s[r].run.end {
      assert s[r] == if r < |front| then front[r] else log[r - |front|];
    }
    forall q | 0 <= q < |s| && s[q].Probed? ensures early <= s[q].at && (|front| + k < q ==> !s[q].gone) {
      assert s[q] == if q < |front| then front[q] else log[q - |front|];
    }
  }

  /** A script with another attempt i. */
  function Spliced(t: Try, i: nat, rest: Script): Script {
    (j: nat) => if j == i then t else rest(j)
  }

  /** The last attempt of an unfinished call, with a worker that lives on. */
  lemma LastSurvives(p: Policy, one: Script, i: nat, deadline: real, now: real, early: real, far: real)
    returns (other: Script)
    requires i <= p.reattach && p.probing && early <= now && now < deadline
    requires OneAttempt(p, one, i, deadline, now, []).0.Some?
    requires !Finished(OneAttempt(p, one, i, deadline, now, []).0.value)
    ensures Attempts(p, other, i, deadline, now, []).0 == Attempts(p, one, i, deadline, now, []).0
    ensures Survives(Attempts(p, other, i, deadline, now, []).2, 0, early, far)
  {
    var v := OneAttempt(p, one, i, deadline, now, []).0.value;
    var survivor := one(i).(workerEnds := far);
    var last := if v.Spoke? then survivor.(took := deadline - now + 1.0) else survivor;
    other := Spliced(last, i, one);
    if !v.Spoke? {
      RetoldAttempt(p, one, other, i, deadline, now, far);
    }
    AttemptLog(p, other, i, deadline, now);
  }

  /** A call that goes as before, to the same verdict, but leaves a worker behind. */
  lemma {:induction false} UnfinishedLeavesSurvivor(
      p: Policy, one: Script, i: nat, deadline: real, now: real, early: real, far: real)
    returns (other: Script, k: nat)
    requires i <= p.reattach && p.probing && early <= now && !Finished(Attempts(p, one, i, deadline, now, []).0)
    ensures Attempts(p, other, i, deadline, now, []).0 == Attempts(p, one, i, deadline, now, []).0
    ensures Survives(Attempts(p, other, i, deadline, now, []).2, k, early, far)
    decreases p.reattach - i
  {
    var first := OneAttempt(p, one, i, deadline, now, []);
    if first.0.Some? {
      other := LastSurvives(p, one, i, deadline, now, early, far);
      k := 0;
    } else {
      assert Attempts(p, one, i, deadline, now, []).0 == Attempts(p, one, i + 1, deadline, first.1, []).0 by {
        VerdictNeedsNoLog(p, one, i + 1, deadline, first.1, first.2);
      }
      AttemptMovesOn(p, one, i, deadline, now);
      var rest, n := UnfinishedLeavesSurvivor(p, one, i + 1, deadline, first.1, early, far);
      other, k := SurvivorStep(p, one, rest, n, i, deadline, now, first.1, early, far);
    }
  }

  lemma AttemptMovesOn(p: Policy, script: Script, i: nat, deadline: real, now: real)
    requires i <= p.reattach && OneAttempt(p, script, i, deadline, now, []).0.None?
    ensures i < p.reattach && now <= OneAttempt(p, script, i, deadline, now, []).1
  {
    AttemptKeepsTime(p, script, i, deadline, now, []);
    AttemptStops(p, script, i, deadline, now, []);
  }

  lemma SurvivorStep(p: Policy, one: Script, rest: Script, n: nat, i: nat, deadline: real, now: real,
                     mid: real, early: real, far: real) returns (other: Script, k: nat)
    requires i < p.reattach && p.probing && early <= now
    requires OneAttempt(p, one, i, deadline, now, []).0.None? && mid == OneAttempt(p, one, i, deadline, now, []).1
    requires Survives(Attempts(p, rest, i + 1, deadline, mid, []).2, n, early, far)
    ensures Attempts(p, other, i, deadline, now, []).0 == Attempts(p, rest, i + 1, deadline, mid, []).0
    ensures Survives(Attempts(p, other, i, deadline, now, []).2, k, early, far)
  {
    other := Spliced(one(i).(workerEnds := early), i, rest);
    var front := PassedOn(p, one, other, i, deadline, now, early);
    SurvivorPrepended(p, rest, other, n, i, deadline, now, mid, front, early, far);
    k := |front| + n;
  }

  /** The attempts before the last go as before, with workers that ended at once. */
  lemma PassedOn(p: Policy, one: Script, other: Script, i: nat, deadline: real, now: real, early: real)
    returns (front: Log)
    requires p.probing && early <= now && OneAttempt(p, one, i, deadline, now, []).0.None?
    requires other(i) == one(i).(workerEnds := early)
    ensures OneAttempt(p, other, i, deadline, now, []) == (None, OneAttempt(p, one, i, deadline, now, []).1, front)
    ensures EndedEarly(front, early)
  {
    RetoldAttempt(p, one, other, i, deadline, now, early);
    AttemptLog(p, other, i, deadline, now);
    front := OneAttempt(p, other, i, deadline, now, []).2;
  }

  lemma VerdictNeedsNoLog(p: Policy, script: Script, i: nat, deadline: real, now: real, log: Log)
    requires i <= p.reattach
    ensures var (v, after, more) := Attempts(p, script, i, deadline, now, []);
            Attempts(p, script, i, deadline, now, log) == (v, after, log + more)
  {
    CallsOnlyAdd(p, script, i, deadline, now, log, []);
    assert log + [] == log;
  }

  lemma SurvivorPrepended(p: Policy, rest: Script, other: Script, n: nat, i: nat, deadline: real, now: real,
                          mid: real, front: Log, early: real, far: real)
    requires i < p.reattach && OneAttempt(p, other, i, deadline, now, []) == (None, mid, front)
    requires EndedEarly(front, early) && Survives(Attempts(p, rest, i + 1, deadline, mid, []).2, n, early, far)
    requires forall j: nat :: i < j ==> other(j) == rest(j)
    ensures Attempts(p, other, i, deadline, now, []).0 == Attempts(p, rest, i + 1, deadline, mid, []).0
    ensures Survives(Attempts(p, other, i, deadline, now, []).2, |front| + n, early, far)
  {
    SameFrom(p, other, rest, i + 1, deadline, mid, front);
    VerdictNeedsNoLog(p, rest, i + 1, deadline, mid, front);
    SurvivesLater(front, Attempts(p, rest, i + 1, deadline, mid, []).2, n, early, far);
  }

  lemma SurvivorOverlaps(log: Log, k: nat, early: real, far: real, second: Invocation)
    requires Survives(log, k, early, far) && second.start < far && second.workerEnds <= second.end
    ensures !NoOverlap(log + [Ran(second)])
  {
    var s := log + [Ran(second)];
    assert forall r :: 0 <= r < |log| ==> s[r] == log[r];
    assert s[|log|] == Ran(second);
    assert s[k].Ran? && s[|log|].Ran?;
  }

  /** The second config's one attempt answers at once. */
  lemma QuickCall(p: Policy, two: Script, start: real)
    requires p.runTimeout > 0.0 && two(0).took == 0.0 && two(0).rc == 0
    ensures Call(p, two, start).2 == [Ran(Run(two(0), start, p.runTimeout))]
  {
    assert start + p.runTimeout - start == p.runTimeout;
  }

  function AnswersAtOnce(ends: real): Script {
    (j: nat) => Try(0.0, 0, ends, 0.0, false, (k: nat) => Reply(0.0, true))
  }

  lemma OverlapsAfter(p: Policy, other: Script, start: real, after: real, log: Log, k: nat, far: real)
    requires p.runTimeout > 0.0 && Call(p, other, start).1 == after < far && Call(p, other, start).2 == log
    requires !Call(p, other, start).0.HostDead? && Survives(log, k, start, far)
    ensures !NoOverlap(TwoConfigs(p, other, AnswersAtOnce(after), start, 0.0))
  {
    var two := AnswersAtOnce(after);
    JointLog(p, other, two, start, 0.0);
    QuickCall(p, two, after);
    assert after + 0.0 == after;
    SurvivorOverlaps(log, k, start, far, Run(two(0), after, p.runTimeout));
  }

  lemma UnfinishedCallLeavesSurvivor(p: Policy, one: Script, start: real, far: real) returns (other: Script, k: nat)
    requires p.probing && !Finished(Call(p, one, start).0)
    requires far == Max(start, start + p.runTimeout + Overrun(p)) + 1.0
    ensures p.runTimeout > 0.0 && Call(p, other, start).0 == Call(p, one, start).0
    ensures Survives(Call(p, other, start).2, k, start, far) && Call(p, other, start).1 < far
  {
    TimeWasLeft(p, one, start);
    other, k := UnfinishedLeavesSurvivor(p, one, 0, start + p.runTimeout, start, start, far);
    CallEndsBy(p, other, start);
  }

  lemma TimeWasLeft(p: Policy, one: Script, start: real)
    requires !Finished(Call(p, one, start).0)
    ensures p.runTimeout > 0.0
  {
  }

  lemma CallEndsBy(p: Policy, script: Script, start: real)
    ensures Call(p, script, start).1 <= Max(start, start + p.runTimeout + Overrun(p))
  {
    AttemptsEnd(p, script, 0, start + p.runTimeout, start, []);
  }

  lemma UnfinishedOverlaps(p: Policy, one: Script, start: real)
    requires p.probing && !Finished(Call(p, one, start).0)
    ensures !NeverOverlapsAfter(p, Call(p, one, start).0)
  {
    var far := Max(start, start + p.runTimeout + Overrun(p)) + 1.0;
    var other, k := UnfinishedCallLeavesSurvivor(p, one, start, far);
    var (v, after, log) := Call(p, other, start);
    OverlapsAfter(p, other, start, after, log, k, far);
  }

  /** The guard does not reach across configs. Whether the next config's worker can start
      beside a survivor is decided by how the first call ended: never after the worker's own
      exit code or a deadline found spent; after any other verdict there is a box, truthful in
      every probe and honest in every exit code, on which two workers run at once. */
  lemma GuardIsPerCall(p: Policy, one: Script, start: real)
    requires p.probing
    ensures NeverOverlapsAfter(p, Call(p, one, start).0) <==> Finished(Call(p, one, start).0)
  {
    var v := Call(p, one, start).0;
    if Finished(v) {
      forall first, second, at, gap | 0.0 <= gap && Call(p, first, at).0 == v
        ensures NoOverlap(TwoConfigs(p, first, second, at, gap))
      {
        FinishedNeverOverlaps(p, first, second, at, gap);
      }
    } else {
      UnfinishedOverlaps(p, one, start);
    }
  }
}

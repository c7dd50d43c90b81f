/** A campaign from its plan to its report: which legs are kept, what their rows say, and what
    becomes of every planned leg. */
module CampaignPlan {
  import opened Prelude
  import opened CutFlow
  import opened Shipment
  import opened CampaignModel
  import opened CampaignFleet
  import opened CampaignCollision
  import opened CampaignRejected

  // ---- which legs a plan keeps

  /** The configs are those of the legs at these places, which are all the legs without
      violations, in plan order. */
  ghost predicate KeptAt(configs: seq<Config>, legs: seq<PlanLeg>, at: seq<nat>) {
    && |configs| == |at|
    && (forall k :: 0 <= k < |at| ==> KeptFrom(configs[k], legs, at[k]))
    && (forall j, k :: 0 <= j < k < |at| ==> at[j] < at[k])
    && (forall i :: 0 <= i < |legs| && legs[i].violations == [] ==> i in at)
  }

  predicate KeptFrom(cfg: Config, legs: seq<PlanLeg>, i: nat) {
    i < |legs| && legs[i].violations == [] && cfg.rid == legs[i].rid && cfg.name == legs[i].name
  }

  /** A plan with distinct rids keeps exactly the legs without violations, each under its own rid
      and run name, in plan order. */
  lemma {:induction false} PlanKeepsExactly(c: Campaign, legs: seq<PlanLeg>) returns (at: seq<nat>)
    requires DistinctRids(legs)
    ensures KeptAt(Plan(c, legs).configs, legs, at)
  {
    at := [];
    if legs != [] {
      var n := |legs| - 1;
      at := PlanKeepsExactly(c, legs[..n]);
      var before := Plan(c, legs[..n]).configs;
      forall k | 0 <= k < |at| ensures KeptFrom(before[k], legs, at[k]) {
        assert KeptFrom(before[k], legs[..n], at[k]);
      }
      if legs[n].violations == [] {
        at := at + [n];
      }
    }
  }

  /** The configs are exactly the legs without violations, in plan order. */
  ghost predicate Keeps(configs: seq<Config>, legs: seq<PlanLeg>) {
    exists at :: KeptAt(configs, legs, at)
  }

  lemma PlanKeeps(c: Campaign, legs: seq<PlanLeg>)
    requires DistinctRids(legs)
    ensures Keeps(Plan(c, legs).configs, legs)
  {
    var at := PlanKeepsExactly(c, legs);
  }

  lemma KeptIff(configs: seq<Config>, legs: seq<PlanLeg>, at: seq<nat>, cfg: Config)
    requires KeptAt(configs, legs, at)
    ensures cfg in configs <==> exists i :: KeptFrom(cfg, legs, i)
  {
    if i: nat :| KeptFrom(cfg, legs, i) {
      assert i in at;
      var k :| 0 <= k < |at| && at[k] == i;
      assert configs[k] == cfg;
    }
    if k :| 0 <= k < |configs| && configs[k] == cfg {
      assert KeptFrom(cfg, legs, at[k]);
    }
  }

  // ---- what the rows say

  /** A valid leg has passed planning and nothing else; a rejected one is dropped throughout, with
      its violations as the reason. */
  ghost predicate RowAsPlanned(f: FleetFlow, leg: PlanLeg) {
    && leg.rid in f
    && (if leg.violations == [] then f[leg.rid].cells == [Passed] + Five(Unknown) && f[leg.rid].why == map[]
        else f[leg.rid].cells == [Dropped] + Five(Dropped)
             && f[leg.rid].why == map[PLANNED := OrUnspecified(Joined(leg.violations))])
  }

  /** The violations, one after the other, separated by "; ". */
  lemma {:induction false} JoinedAppends(v: seq<string>, x: string)
    ensures Joined([]) == "" && Joined([x]) == x
    ensures v != [] ==> Joined(v + [x]) == Joined(v) + "; " + x
  {
    if |v| > 1 {
      JoinedAppends(v[1..], x);
      assert (v + [x])[1..] == v[1..] + [x];
    } else if |v| == 1 {
      assert (v + [x])[1..] == [x];
    }
  }

  function Five(cell: Cell): seq<Cell> { [cell, cell, cell, cell, cell] }

  lemma OneLegPlanned(f: FleetFlow, leg: PlanLeg)
    ensures var ok := leg.violations == [];
            RowAsPlanned(Marked(Entered(f, leg.rid), leg.rid, PLANNED, ok, Joined(leg.violations)), leg)
  {
    var row := MarkRow(EnterRow(STAGES), PLANNED, leg.violations == [], Joined(leg.violations));
    if leg.violations == [] {
      assert row.cells == [Passed] + Five(Unknown);
    } else {
      assert row.cells == [Dropped] + Five(Dropped);
    }
  }

  lemma {:induction false} PlanRowsTell(f: FleetFlow, legs: seq<PlanLeg>, i: nat)
    requires DistinctRids(legs) && i < |legs|
    ensures RowAsPlanned(PlanLegs(f, legs), legs[i])
  {
    var n := |legs| - 1;
    if i == n {
      OneLegPlanned(PlanLegs(f, legs[..n]), legs[n]);
    } else {
      PlanRowsTell(f, legs[..n], i);
    }
  }

  lemma {:induction false} PlanLeavesOthers(f: FleetFlow, legs: seq<PlanLeg>, rid: string)
    requires forall leg :: leg in legs ==> leg.rid != rid
    ensures var g := PlanLegs(f, legs); (rid in f <==> rid in g) && (rid in f ==> g[rid] == f[rid])
  {
    if legs != [] {
      PlanLeavesOthers(f, legs[..|legs| - 1], rid);
      assert legs[|legs| - 1] in legs;
    }
  }

  lemma {:induction false} GateLeavesOthers(f: FleetFlow, configs: seq<Config>, ok: bool, reason: string, rid: string)
    requires rid !in Rids(configs)
    ensures var g := GateMarks(f, configs, ok, reason); (rid in f <==> rid in g) && (rid in f ==> g[rid] == f[rid])
    decreases configs
  {
    if configs != [] {
      assert configs[0].rid in Rids(configs) && Rids(configs[1..]) <= Rids(configs);
      GateLeavesOthers(Marked(f, configs[0].rid, LAUNCH_GATE, ok, reason), configs[1..], ok, reason, rid);
    }
  }

  /** A planned row the gate refused: dropped at the gate and after it, with the gate's reason. */
  ghost predicate RefusedRow(f: FleetFlow, rid: string, reason: string) {
    && rid in f && f[rid].cells == [Passed] + Five(Dropped)
    && f[rid].why == map[LAUNCH_GATE := OrUnspecified(reason)]
  }

  ghost predicate AwaitsGate(f: FleetFlow, rid: string) {
    rid in f && f[rid].cells == [Passed] + Five(Unknown) && f[rid].why == map[]
  }

  lemma OneLegRefused(f: FleetFlow, rid: string, reason: string)
    requires AwaitsGate(f, rid) || RefusedRow(f, rid, reason)
    ensures RefusedRow(Marked(f, rid, LAUNCH_GATE, false, reason), rid, reason)
  {
    assert MarkRow(f[rid], LAUNCH_GATE, false, reason).cells == [Passed] + Five(Dropped);
    assert MarkRow(f[rid], LAUNCH_GATE, false, reason).why == map[LAUNCH_GATE := OrUnspecified(reason)];
  }

  lemma {:induction false} RefusalDrops(f: FleetFlow, configs: seq<Config>, reason: string, rid: string)
    requires RefusedRow(f, rid, reason) || (AwaitsGate(f, rid) && rid in Rids(configs))
    ensures RefusedRow(GateMarks(f, configs, false, reason), rid, reason)
    decreases configs
  {
    if configs != [] {
      assert configs == [configs[0]] + configs[1..];
      var g := Marked(f, configs[0].rid, LAUNCH_GATE, false, reason);
      if configs[0].rid == rid {
        OneLegRefused(f, rid, reason);
      }
      RefusalDrops(g, configs[1..], reason, rid);
    }
  }

  /** When the gate refuses, every valid leg of the plan is dropped there with the reason, and no
      leg can be dispatched. */
  lemma RefusedGateDropsEveryLeg(c: Campaign, legs: seq<PlanLeg>, launched: seq<Config>, reason: string, i: nat)
    requires DistinctRids(legs) && i < |legs| && legs[i].violations == []
    ensures var d := Gate(Plan(c, legs), launched, reason); !d.gated ==> RefusedRow(d.flow, legs[i].rid, reason)
  {
    var p := Plan(c, legs);
    PlanRowsTell(c.flow, legs, i);
    ValidIsKept(c, legs, i);
    if NamesOf(p.configs) != NamesOf(launched) {
      RefusalDrops(p.flow, p.configs, reason, legs[i].rid);
    }
  }

  lemma ValidIsKept(c: Campaign, legs: seq<PlanLeg>, i: nat)
    requires DistinctRids(legs) && i < |legs| && legs[i].violations == []
    ensures Config(legs[i].rid, legs[i].name) in Plan(c, legs).configs && legs[i].rid in Rids(Plan(c, legs).configs)
  {
    var at := PlanKeepsExactly(c, legs);
    KeptIff(Plan(c, legs).configs, legs, at, Config(legs[i].rid, legs[i].name));
    assert KeptFrom(Config(legs[i].rid, legs[i].name), legs, i);
  }

  lemma RejectedIsNotKept(c: Campaign, legs: seq<PlanLeg>, i: nat)
    requires DistinctRids(legs) && i < |legs| && legs[i].violations != []
    ensures legs[i].rid !in Rids(Plan(c, legs).configs)
  {
    var configs := Plan(c, legs).configs;
    var at := PlanKeepsExactly(c, legs);
    forall cfg | cfg in configs ensures cfg.rid != legs[i].rid {
      KeptIff(configs, legs, at, cfg);
      var j :| KeptFrom(cfg, legs, j);
    }
  }

  // ---- from the plan to the report

  /** The keys of a report are the planned rids and the keys foreseen for unplanned records. */
  lemma {:induction false} ReconcileCovers(c: Campaign, out: Report, configs: seq<Config>, key: string)
    ensures key in Reconcile(c, out, configs).1 <==> key in out || key in Rids(configs)
    ensures key in out ==> Reconcile(c, out, configs).1[key] == out[key]
  {
    if configs != [] {
      var n := |configs| - 1;
      assert configs == configs[..n] + [configs[n]] && configs[n] in configs;
      ReconcileCovers(c, out, configs[..n], key);
      ReconcileCovers(c, out, configs[..n], configs[n].rid);
    }
  }

  lemma ReportKeys(c: Campaign, recs: seq<Record>, env: Setting, key: string)
    ensures key in ExecuteFleet(c, recs, env).1 <==> key in Rids(c.configs) || key in StrangerKeys(c.configs, recs)
  {
    FleetRecordsAsForeseen(c, recs, env);
    var (d, out) := FleetRecords(c, recs, env);
    assert d.configs == c.configs;
    ReconcileCovers(d, out, c.configs, key);
    if key in Rids(c.configs) {
      assert RidForeseen(c, d, out, recs, env, key);
    }
  }

  ghost predicate IsValidLeg(legs: seq<PlanLeg>, key: string) {
    exists i :: 0 <= i < |legs| && legs[i].rid == key && legs[i].violations == []
  }

  lemma KeptRids(c: Campaign, legs: seq<PlanLeg>, key: string)
    requires DistinctRids(legs)
    ensures key in Rids(Plan(c, legs).configs) <==> IsValidLeg(legs, key)
  {
    var at := PlanKeepsExactly(c, legs);
    if cfg :| cfg in Plan(c, legs).configs && cfg.rid == key {
      KeptIff(Plan(c, legs).configs, legs, at, cfg);
    }
    if i :| 0 <= i < |legs| && legs[i].rid == key && legs[i].violations == [] {
      ValidIsKept(c, legs, i);
    }
  }

  /** Plan, gate and dispatch: the report's keys are the rids of the legs without violations, and
      those under which unplanned records are filed, whatever the dispatch returns. */
  lemma EveryValidLegIsReported(c: Campaign, legs: seq<PlanLeg>, launched: seq<Config>, reason: string,
                                recs: seq<Record>, env: Setting, key: string)
    requires DistinctRids(legs)
    ensures var d := Gate(Plan(c, legs), launched, reason);
            key in ExecuteFleet(d, recs, env).1 <==> IsValidLeg(legs, key) || key in StrangerKeys(d.configs, recs)
  {
    var d := Gate(Plan(c, legs), launched, reason);
    ReportKeys(d, recs, env, key);
    KeptRids(c, legs, key);
  }

  /** With distinct run names and no collision, a valid leg's result is the one its first record
      earns, or LOST, and its row stops at the stage that result stands for. */
  lemma ValidLegIsTold(c: Campaign, legs: seq<PlanLeg>, launched: seq<Config>, reason: string,
                       recs: seq<Record>, env: Setting, i: nat)
    requires DistinctRids(legs) && DistinctNames(legs) && i < |legs| && legs[i].violations == []
    requires var d := Gate(Plan(c, legs), launched, reason); d.gated && !Collides(d)
    ensures var d, leg := Gate(Plan(c, legs), launched, reason), legs[i];
            var (e, out) := ExecuteFleet(d, recs, env);
            && leg.rid in out && out[leg.rid] == ExpectedStatus(d, recs, env, Config(leg.rid, leg.name))
            && leg.rid in e.flow && RowTells(e.flow[leg.rid], out[leg.rid])
            && RowShows(e.flow[leg.rid], ExpectedStop(d, recs, env, Config(leg.rid, leg.name)))
  {
    PlanAndGateMakeReady(c, legs, launched, reason);
    ValidIsKept(c, legs, i);
    var d := Gate(Plan(c, legs), launched, reason);
    var e, out := ExecuteFleetTotal(d, recs, env);
    assert PlannedTotal(d, recs, env, e, out, Config(legs[i].rid, legs[i].name));
  }

  /** A leg the plan rejected keeps its dropped row, violations and all, exactly when the dispatch
      list is not going to take its rid for bookkeeping. */
  lemma RejectedLegIsTold(c: Campaign, legs: seq<PlanLeg>, launched: seq<Config>, reason: string,
                          recs: seq<Record>, env: Setting, i: nat)
    requires DistinctRids(legs) && i < |legs| && legs[i].violations != []
    ensures var d, leg := Gate(Plan(c, legs), launched, reason), legs[i];
            RowAsPlanned(ExecuteFleet(d, recs, env).0.flow, leg) <==> !WillTake(d, recs, env, leg.rid)
  {
    var p, d := Plan(c, legs), Gate(Plan(c, legs), launched, reason);
    PlanRowsTell(c.flow, legs, i);
    RejectedIsNotKept(c, legs, i);
    var ok := NamesOf(p.configs) == NamesOf(launched);
    GateLeavesOthers(p.flow, p.configs, ok, if ok then "" else reason, legs[i].rid);
    assert RowAsPlanned(d.flow, legs[i]);
    PlanningDropSurvivesExactly(d, recs, env, legs[i].rid);
  }
}

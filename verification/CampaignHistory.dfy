/** Whole campaigns: any sequence of plan, gate and execute calls, in any order. */
module CampaignHistory {
  import opened Prelude
  import opened CutFlow
  import opened Shipment
  import opened CampaignModel

  /** What the corpus must look like: one entry per leg, each verified, each recorded under
      the digest of what was ingested. */
  ghost predicate CorpusOk(c: Campaign, required: map<string, string>) {
    && (forall i, j :: 0 <= i < j < |c.corpus| ==> c.corpus[i].0 != c.corpus[j].0)
    && (forall i :: 0 <= i < |c.corpus| ==> EntryOk(c, c.corpus[i], required))
    && (forall rid :: rid in c.ingested ==> InCorpus(c, rid))
  }

  ghost predicate EntryOk(c: Campaign, entry: (string, Shipment), required: map<string, string>) {
    && Verified(entry.1, required)
    && entry.0 in c.ingested
    && HashProducts(entry.1.products.value) == Some(c.ingested[entry.0])
  }

  ghost predicate InCorpus(c: Campaign, rid: string) {
    exists i :: 0 <= i < |c.corpus| && c.corpus[i].0 == rid
  }

  /** The corpus only grows, and no key's content ever changes. */
  ghost predicate Grows(c: Campaign, d: Campaign) {
    && (forall rid :: rid in c.ingested ==> rid in d.ingested && d.ingested[rid] == c.ingested[rid])
    && c.corpus <= d.corpus
  }

  ghost predicate Step(c: Campaign, d: Campaign, required: map<string, string>) {
    Grows(c, d) && (CorpusOk(c, required) ==> CorpusOk(d, required))
  }

  lemma StepsCompose(c: Campaign, d: Campaign, e: Campaign, required: map<string, string>)
    requires Step(c, d, required) && Step(d, e, required)
    ensures Step(c, e, required)
  {
  }

  /** A change that leaves corpus and digests alone. */
  lemma SameCorpus(c: Campaign, d: Campaign, required: map<string, string>)
    requires d.ingested == c.ingested && d.corpus == c.corpus
    ensures Step(c, d, required)
  {
    assert forall rid :: InCorpus(c, rid) ==> InCorpus(d, rid);
    assert forall e :: EntryOk(c, e, required) ==> EntryOk(d, e, required);
  }

  lemma AcceptSteps(c: Campaign, rid: string, s: Shipment, content: Digest, required: map<string, string>)
    requires Verified(s, required) && HashProducts(s.products.value) == Some(content)
    ensures Step(c, Accept(c, rid, s, content).0, required)
  {
    var d := Accept(c, rid, s, content).0;
    if rid in c.ingested {
      SameCorpus(c, d, required);
    } else if CorpusOk(c, required) {
      NewEntryOk(c, d, rid, s, required);
    }
  }

  lemma NewEntryOk(c: Campaign, d: Campaign, rid: string, s: Shipment, required: map<string, string>)
    requires CorpusOk(c, required) && rid !in c.ingested
    requires Verified(s, required) && HashProducts(s.products.value).Some?
    requires d.corpus == c.corpus + [(rid, s)] && d.ingested == c.ingested[rid := HashProducts(s.products.value).value]
    ensures CorpusOk(d, required)
  {
    forall i | 0 <= i < |d.corpus| ensures EntryOk(d, d.corpus[i], required) {
      if i < |c.corpus| {
        assert EntryOk(c, c.corpus[i], required);
      }
    }
    forall r | r in d.ingested ensures InCorpus(d, r) {
      if r == rid {
        assert d.corpus[|c.corpus|].0 == rid;
      } else {
        assert InCorpus(c, r);
        var i :| 0 <= i < |c.corpus| && c.corpus[i].0 == r;
        assert d.corpus[i].0 == r;
      }
    }
    forall i, j | 0 <= i < j < |d.corpus| ensures d.corpus[i].0 != d.corpus[j].0 {
      assert EntryOk(c, c.corpus[i], required);
    }
  }

  lemma GovernSteps(c: Campaign, rid: string, s: Shipment, required: map<string, string>)
    ensures Step(c, Govern(c, rid, s, required).0, required)
  {
    var d := Govern(c, rid, s, required).0;
    if WellShaped(s) && Verified(s, required) && HashProducts(s.products.value).Some? {
      var f := Marked(Marked(Marked(Marked(c.flow, rid, COMPLETED, true, ""), rid, SHIPPED, true, ""),
                      rid, VERIFIED, true, ""), rid, REGISTERED_STAGE, true, "");
      var b := c.(flow := f);
      SameCorpus(c, b, required);
      AcceptSteps(b, rid, s, HashProducts(s.products.value).value, required);
      StepsCompose(c, b, d, required);
    } else {
      SameCorpus(c, d, required);
    }
  }

  lemma OnSkipSteps(c: Campaign, cfg: Config, env: Setting)
    ensures Step(c, OnSkip(c, cfg, env).0, env.required)
  {
    if cfg.rid !in c.ingested && cfg.name in env.done {
      GovernSteps(c, cfg.rid, env.done[cfg.name], env.required);
    } else {
      SameCorpus(c, OnSkip(c, cfg, env).0, env.required);
    }
  }

  lemma ExecuteLegSteps(c: Campaign, cfg: Config, outcome: RunOutcome, env: Setting)
    ensures Step(c, ExecuteLeg(c, cfg, outcome, env).0, env.required)
  {
    var d := if cfg.rid in c.flow then c else c.(flow := Entered(c.flow, cfg.rid));
    SameCorpus(c, d, env.required);
    match outcome {
      case Died(message) => SameCorpus(d, Lose(d, cfg.rid, "HOST_LOST: " + message), env.required);
      case Shipped(None) => OnSkipSteps(d, cfg, env);
      case Shipped(Some(s)) => GovernSteps(d, cfg.rid, s, env.required);
    }
    StepsCompose(c, d, ExecuteLeg(c, cfg, outcome, env).0, env.required);
  }

  lemma FleetRecordSteps(c: Campaign, out: Report, rec: Record, env: Setting)
    ensures Step(c, FleetRecord(c, out, rec, env).0, env.required)
  {
    match Lookup(c.configs, rec.run) {
      case None => SameCorpus(c, FleetRecord(c, out, rec, env).0, env.required);
      case Some(cfg) =>
        if cfg.rid in out {
          SameCorpus(c, FleetRecord(c, out, rec, env).0, env.required);
        } else {
          ExecuteLegSteps(c, cfg, RecordOutcome(rec), env);
          PlannedRecordSteps(c, cfg, rec, env);
        }
    }
  }

  function RecordOutcome(rec: Record): RunOutcome {
    if rec.result.None? && !rec.skipped then Died("") else Shipped(rec.result)
  }

  lemma PlannedRecordSteps(c: Campaign, cfg: Config, rec: Record, env: Setting)
    ensures Step(c, PlannedRecord(c, cfg, rec, env).0, env.required)
  {
    if rec.result.None? && !rec.skipped {
      SameCorpus(c, PlannedRecord(c, cfg, rec, env).0, env.required);
    } else {
      ExecuteLegSteps(c, cfg, RecordOutcome(rec), env);
    }
  }

  lemma {:induction false} FleetRecordsSteps(c: Campaign, recs: seq<Record>, env: Setting)
    ensures Step(c, FleetRecords(c, recs, env).0, env.required)
  {
    if recs == [] {
      SameCorpus(c, c, env.required);
    } else {
      var n := |recs| - 1;
      FleetRecordsSteps(c, recs[..n], env);
      var (d, out) := FleetRecords(c, recs[..n], env);
      FleetRecordSteps(d, out, recs[n], env);
      StepsCompose(c, d, FleetRecord(d, out, recs[n], env).0, env.required);
    }
  }

  lemma {:induction false} ReconcileSameCorpus(c: Campaign, out: Report, configs: seq<Config>)
    ensures Reconcile(c, out, configs).0.ingested == c.ingested && Reconcile(c, out, configs).0.corpus == c.corpus
  {
    if configs != [] {
      ReconcileSameCorpus(c, out, configs[..|configs| - 1]);
    }
  }

  lemma ExecuteFleetSteps(c: Campaign, recs: seq<Record>, env: Setting)
    ensures Step(c, ExecuteFleet(c, recs, env).0, env.required)
  {
    FleetRecordsSteps(c, recs, env);
    var (d, out) := FleetRecords(c, recs, env);
    ReconcileSameCorpus(d, out, c.configs);
    SameCorpus(d, Reconcile(d, out, c.configs).0, env.required);
    StepsCompose(c, d, Reconcile(d, out, c.configs).0, env.required);
  }

  /** One call on the campaign. The results on disk may differ from call to call. */
  datatype Call =
    | PlanCall(legs: seq<PlanLeg>)
    | GateCall(launched: seq<Config>, reason: string)
    | LegCall(cfg: Config, outcome: RunOutcome, done: map<string, Shipment>)
    | FleetCall(recs: seq<Record>, faulty: bool, done: map<string, Shipment>)

  /** An ungated fleet call is refused and changes nothing; a faulty one stops after its records. */
  ghost function Perform(c: Campaign, call: Call, required: map<string, string>): Campaign {
    match call
    case PlanCall(legs) => Plan(c, legs)
    case GateCall(launched, reason) => Gate(c, launched, reason)
    case LegCall(cfg, outcome, done) => ExecuteLeg(c, cfg, outcome, Setting(required, done)).0
    case FleetCall(recs, faulty, done) =>
      if !c.gated then c
      else if faulty then FleetRecords(c, recs, Setting(required, done)).0
      else ExecuteFleet(c, recs, Setting(required, done)).0
  }

  ghost function History(c: Campaign, calls: seq<Call>, required: map<string, string>): Campaign {
    if calls == [] then c
    else Perform(History(c, calls[..|calls| - 1], required), calls[|calls| - 1], required)
  }

  lemma PerformSteps(c: Campaign, call: Call, required: map<string, string>)
    ensures Step(c, Perform(c, call, required), required)
  {
    match call {
      case PlanCall(legs) => SameCorpus(c, Plan(c, legs), required);
      case GateCall(launched, reason) => SameCorpus(c, Gate(c, launched, reason), required);
      case LegCall(cfg, outcome, done) => ExecuteLegSteps(c, cfg, outcome, Setting(required, done));
      case FleetCall(recs, faulty, done) =>
        FleetRecordsSteps(c, recs, Setting(required, done));
        ExecuteFleetSteps(c, recs, Setting(required, done));
        SameCorpus(c, c, required);
    }
  }

  ghost function NewCampaign(): Campaign { Campaign(map[], [], map[], [], false) }

  lemma {:induction false} HistorySteps(c: Campaign, calls: seq<Call>, required: map<string, string>)
    ensures Step(c, History(c, calls, required), required)
  {
    if calls == [] {
      SameCorpus(c, c, required);
    } else {
      var n := |calls| - 1;
      HistorySteps(c, calls[..n], required);
      var d := History(c, calls[..n], required);
      PerformSteps(d, calls[n], required);
      StepsCompose(c, d, Perform(d, calls[n], required), required);
    }
  }

  lemma {:induction false} HistoryContinues(c: Campaign, before: seq<Call>, after: seq<Call>, required: map<string,
                                            string>)
    ensures History(c, before + after, required) == History(History(c, before, required), after, required)
  {
    if after == [] {
      assert before + after == before;
    } else {
      var n := |after| - 1;
      HistoryContinues(c, before, after[..n], required);
      assert (before + after)[..|before + after| - 1] == before + after[..n];
    }
  }

  /** Verified once, kept for good: over any calls in any order the ingest callback fires
      exactly once for each leg in the corpus, always with a verified shipment, and whatever
      was ingested by some point is still there, with the same content, at any later one. */
  lemma IngestedOnceAndForAll(before: seq<Call>, after: seq<Call>, required: map<string, string>)
    ensures var c, d := History(NewCampaign(), before, required), History(NewCampaign(), before + after, required);
            CorpusOk(c, required) && CorpusOk(d, required) && Grows(c, d)
  {
    var c := History(NewCampaign(), before, required);
    HistorySteps(NewCampaign(), before, required);
    assert CorpusOk(NewCampaign(), required);
    HistoryContinues(NewCampaign(), before, after, required);
    HistorySteps(c, after, required);
  }

  // ---- the cut-flow stays explained through all of it

  ghost predicate Told(c: Campaign) { FlowOk(c.flow, STAGES) }

  lemma EnteredOk(f: FleetFlow, leg: string)
    requires FlowOk(f, STAGES)
    ensures FlowOk(Entered(f, leg), STAGES)
  {
  }

  lemma MarkedOk(f: FleetFlow, leg: string, i: nat, ok: bool, reason: string)
    requires FlowOk(f, STAGES) && i < STAGES
    ensures FlowOk(Marked(f, leg, i, ok, reason), STAGES)
  {
    MarkKeepsExplained(RowOf(f, STAGES, leg), STAGES, i, ok, reason);
  }

  lemma {:induction false} PassStagesOk(f: FleetFlow, rid: string, first: nat, last: nat)
    requires FlowOk(f, STAGES) && first <= last <= STAGES
    ensures FlowOk(PassStages(f, rid, first, last), STAGES)
    decreases last - first
  {
    if first < last {
      MarkedOk(f, rid, first, true, "");
      PassStagesOk(Marked(f, rid, first, true, ""), rid, first + 1, last);
    }
  }

  lemma IngestOk(c: Campaign, rid: string, s: Shipment)
    requires Told(c) && s.Parcel? && s.products.Dict?
    ensures Told(Ingest(c, rid, s).0)
  {
    MarkedOk(c.flow, rid, REGISTERED_STAGE, false, "unhashable products");
    var f := Marked(c.flow, rid, REGISTERED_STAGE, true, "");
    MarkedOk(c.flow, rid, REGISTERED_STAGE, true, "");
    ConflictRowOk(f, rid);
  }

  lemma GovernContentOk(c: Campaign, rid: string, s: Shipment, required: map<string, string>)
    requires Told(c) && WellShaped(s)
    ensures Told(GovernContent(c, rid, s, required).0)
  {
    MarkedOk(c.flow, rid, VERIFIED, false, "violations");
    MarkedOk(c.flow, rid, VERIFIED, true, "");
    IngestOk(c.(flow := Marked(c.flow, rid, VERIFIED, true, "")), rid, s);
  }

  lemma GovernShapeOk(c: Campaign, rid: string, s: Shipment, required: map<string, string>)
    requires Told(c)
    ensures Told(GovernShape(c, rid, s, required).0)
  {
    MarkedOk(c.flow, rid, SHIPPED, false, "malformed shipment");
    MarkedOk(c.flow, rid, SHIPPED, true, "");
    if WellShaped(s) {
      GovernContentOk(c.(flow := Marked(c.flow, rid, SHIPPED, true, "")), rid, s, required);
    }
  }

  lemma GovernOk(c: Campaign, rid: string, s: Shipment, required: map<string, string>)
    requires Told(c)
    ensures Told(Govern(c, rid, s, required).0)
  {
    MarkedOk(c.flow, rid, COMPLETED, true, "");
    GovernShapeOk(c.(flow := Marked(c.flow, rid, COMPLETED, true, "")), rid, s, required);
  }

  lemma ConflictRowOk(f: FleetFlow, rid: string)
    requires FlowOk(f, STAGES)
    ensures FlowOk(ConflictRow(f, rid), STAGES)
  {
    var leg := rid + ".conflict";
    EnteredOk(f, leg);
    PassStagesOk(Entered(f, leg), leg, 0, REGISTERED_STAGE);
    MarkedOk(PassStages(Entered(f, leg), leg, 0, REGISTERED_STAGE), leg, REGISTERED_STAGE, false, "CONFLICT");
  }

  lemma OnSkipOk(c: Campaign, cfg: Config, env: Setting)
    requires Told(c)
    ensures Told(OnSkip(c, cfg, env).0)
  {
    if cfg.rid in c.ingested {
      PassStagesOk(c.flow, cfg.rid, COMPLETED, STAGES);
    } else if cfg.name in env.done {
      GovernOk(c, cfg.rid, env.done[cfg.name], env.required);
    } else {
      MarkedOk(c.flow, cfg.rid, COMPLETED, false, "skip signaled but no DONE.json result");
    }
  }

  lemma ExecuteLegOk(c: Campaign, cfg: Config, outcome: RunOutcome, env: Setting)
    requires Told(c)
    ensures Told(ExecuteLeg(c, cfg, outcome, env).0)
  {
    var d := if cfg.rid in c.flow then c else c.(flow := Entered(c.flow, cfg.rid));
    EnteredOk(c.flow, cfg.rid);
    match outcome {
      case Died(message) => MarkedOk(d.flow, cfg.rid, COMPLETED, false, "HOST_LOST: " + message);
      case Shipped(None) => OnSkipOk(d, cfg, env);
      case Shipped(Some(s)) => GovernOk(d, cfg.rid, s, env.required);
    }
  }

  lemma FleetRecordOk(c: Campaign, out: Report, rec: Record, env: Setting)
    requires Told(c)
    ensures Told(FleetRecord(c, out, rec, env).0)
  {
    match Lookup(c.configs, rec.run) {
      case None =>
        var key := FreshKey(KeyText(rec.run), Rids(c.configs) + out.Keys);
        EnteredOk(c.flow, key);
        MarkedOk(Entered(c.flow, key), key, COMPLETED, false, "unplanned run name");
      case Some(cfg) =>
        var dup := cfg.rid + ".dup";
        EnteredOk(c.flow, dup);
        MarkedOk(Entered(c.flow, dup), dup, COMPLETED, false, "duplicate dispatch record");
        PlannedRecordOk(c, cfg, rec, env);
    }
  }

  lemma PlannedRecordOk(c: Campaign, cfg: Config, rec: Record, env: Setting)
    requires Told(c)
    ensures Told(PlannedRecord(c, cfg, rec, env).0)
  {
    var d := if cfg.rid in c.flow then c else c.(flow := Entered(c.flow, cfg.rid));
    EnteredOk(c.flow, cfg.rid);
    MarkedOk(d.flow, cfg.rid, COMPLETED, false, "no result (host lost)");
    ExecuteLegOk(c, cfg, RecordOutcome(rec), env);
  }

  lemma {:induction false} ExecuteFleetOk(c: Campaign, recs: seq<Record>, env: Setting)
    requires Told(c)
    ensures Told(FleetRecords(c, recs, env).0)
  {
    if recs != [] {
      var n := |recs| - 1;
      ExecuteFleetOk(c, recs[..n], env);
      var (d, out) := FleetRecords(c, recs[..n], env);
      FleetRecordOk(d, out, recs[n], env);
    }
  }

  lemma {:induction false} ReconcileOk(c: Campaign, out: Report, configs: seq<Config>)
    requires Told(c)
    ensures Told(Reconcile(c, out, configs).0)
  {
    if configs != [] {
      var n := |configs| - 1;
      ReconcileOk(c, out, configs[..n]);
      MarkedOk(Reconcile(c, out, configs[..n]).0.flow, configs[n].rid, COMPLETED, false, "dispatch returned no record");
    }
  }

  lemma {:induction false} PlanLegsOk(f: FleetFlow, legs: seq<PlanLeg>)
    requires FlowOk(f, STAGES)
    ensures FlowOk(PlanLegs(f, legs), STAGES)
  {
    if legs != [] {
      var n := |legs| - 1;
      var leg := legs[n];
      PlanLegsOk(f, legs[..n]);
      EnteredOk(PlanLegs(f, legs[..n]), leg.rid);
      MarkedOk(Entered(PlanLegs(f, legs[..n]), leg.rid), leg.rid, PLANNED, leg.violations == [],
               Joined(leg.violations));
    }
  }

  lemma {:induction false} GateMarksOk(f: FleetFlow, configs: seq<Config>, ok: bool, reason: string)
    requires FlowOk(f, STAGES)
    ensures FlowOk(GateMarks(f, configs, ok, reason), STAGES)
    decreases configs
  {
    if configs != [] {
      MarkedOk(f, configs[0].rid, LAUNCH_GATE, ok, reason);
      GateMarksOk(Marked(f, configs[0].rid, LAUNCH_GATE, ok, reason), configs[1..], ok, reason);
    }
  }

  /** No silent attrition: after any calls, every drop in the waterfall has a recorded reason
      at its own stage or an earlier one, and every recorded reason sits on a drop. */
  lemma {:induction false} EveryDropStaysExplained(calls: seq<Call>, required: map<string, string>)
    ensures FlowOk(History(NewCampaign(), calls, required).flow, STAGES)
  {
    if calls != [] {
      var n := |calls| - 1;
      EveryDropStaysExplained(calls[..n], required);
      var c := History(NewCampaign(), calls[..n], required);
      match calls[n] {
        case PlanCall(legs) => PlanLegsOk(c.flow, legs);
        case GateCall(launched, reason) =>
          var ok := NamesOf(c.configs) == NamesOf(launched);
          GateMarksOk(c.flow, c.configs, ok, if ok then "" else reason);
        case LegCall(cfg, outcome, done) => ExecuteLegOk(c, cfg, outcome, Setting(required, done));
        case FleetCall(recs, faulty, done) =>
          var env := Setting(required, done);
          ExecuteFleetOk(c, recs, env);
          var (d, out) := FleetRecords(c, recs, env);
          ReconcileOk(d, out, c.configs);
      }
    }
  }
}

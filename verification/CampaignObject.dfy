/** The campaign as an object: its methods, step by step, against the state functions. */
module CampaignObject {
  import opened Prelude
  import opened CutFlow
  import opened Shipment
  import opened CampaignModel
  import opened CampaignPlan

  datatype GateViolation = MissingLegs(rids: set<string>) | UnplannedLegs(rids: set<string>)

  datatype FleetError = NotGated | DispatchRaised

  method RidsByName(configs: seq<Config>) returns (m: map<string, string>)
    ensures m.Keys == NamesOf(configs)
    ensures forall name :: name in m ==> exists c :: c in configs && c.name == name && c.rid == m[name]
  {
    m := map[];
    for i := 0 to |configs|
      invariant m.Keys == NamesOf(configs[..i])
      invariant forall name :: name in m ==> exists c :: c in configs && c.name == name && c.rid == m[name]
    {
      assert configs[..i + 1] == configs[..i] + [configs[i]];
      m := m[configs[i].name := configs[i].rid];
    }
    assert configs[..|configs|] == configs;
  }

  /** Refuses the launch exactly when the launched run names are not the planned ones, and
      says which side each difference is on. */
  method LaunchGate(planned: seq<Config>, launched: seq<Config>) returns (v: seq<GateViolation>)
    ensures v == [] <==> NamesOf(planned) == NamesOf(launched)
    ensures (exists x :: x in v && x.MissingLegs?) <==> NamesOf(planned) - NamesOf(launched) != {}
    ensures (exists x :: x in v && x.UnplannedLegs?) <==> NamesOf(launched) - NamesOf(planned) != {}
  {
    var p := RidsByName(planned);
    var q := RidsByName(launched);
    v := [];
    if p.Keys - q.Keys != {} {
      v := v + [MissingLegs(set h | h in p.Keys - q.Keys :: p[h])];
      assert v[0].MissingLegs?;
    }
    ghost var before := v;
    if q.Keys - p.Keys != {} {
      v := v + [UnplannedLegs(set h | h in q.Keys - p.Keys :: q[h])];
      assert v[|v| - 1].UnplannedLegs?;
      assert forall x :: x in before ==> x in v;
    }
  }

  /** Rids that occur more than once. */
  method DuplicateRids(legs: seq<PlanLeg>) returns (dups: set<string>)
    ensures dups == {} <==> DistinctRids(legs)
  {
    var seen := {};
    dups := {};
    for i := 0 to |legs|
      invariant seen == set k | 0 <= k < i :: legs[k].rid
      invariant dups == {} <==> DistinctRids(legs[..i])
    {
      assert legs[..i + 1] == legs[..i] + [legs[i]];
      if legs[i].rid in seen {
        dups := dups + {legs[i].rid};
      } else {
        seen := seen + {legs[i].rid};
      }
    }
    assert legs[..|legs|] == legs;
  }

  class FarmCampaign {
    const cf: Table
    const required: map<string, string>
    var configs: seq<Config>
    var ingested: map<string, Digest>
    var corpus: seq<(string, Shipment)>
    var gated: bool

    ghost predicate Valid()
      reads this, cf
    {
      cf.Valid() && cf.stages == STAGES
    }

    ghost function State(): Campaign
      reads this, cf
      requires Valid()
    {
      Campaign(cf.Contents(), configs, ingested, corpus, gated)
    }

    constructor (required: map<string, string>)
      ensures Valid() && fresh(cf) && this.required == required
      ensures State() == Campaign(map[], [], map[], [], false)
    {
      cf := new Table(STAGES);
      this.required := required;
      configs, ingested, corpus, gated := [], map[], [], false;
    }

    method Note(rid: string, stage: nat, ok: bool, reason: string)
      requires Valid() && stage < STAGES
      modifies cf
      ensures Valid()
      ensures State() == old(State()).(flow := Marked(old(State()).flow, rid, stage, ok, reason))
    {
      cf.Mark(rid, stage, ok, reason);
    }

    method Admit(rid: string)
      requires Valid()
      modifies cf
      ensures Valid()
      ensures State() == old(State()).(flow := Entered(old(State()).flow, rid))
    {
      cf.Enter(rid);
    }

    method AdmitIfNew(rid: string)
      requires Valid()
      modifies cf
      ensures Valid()
      ensures State() == if rid in old(State()).flow then old(State())
                         else old(State()).(flow := Entered(old(State()).flow, rid))
    {
      if rid !in cf.rows {
        Admit(rid);
      }
    }

    /** Keeps the legs without violations, in plan order. Fails, with the gate already reset, when
        a rid is planned twice. */
    method Plan(legs: seq<PlanLeg>) returns (valid: Option<nat>)
      requires Valid()
      modifies this, cf
      ensures Valid()
      ensures State() == CampaignModel.Plan(old(State()), legs)
      ensures valid == if DistinctRids(legs) then Some(|configs|) else None
      ensures DistinctRids(legs) ==> Keeps(configs, legs)
      ensures !DistinctRids(legs) ==> State() == old(State()).(gated := false)
    {
      gated := false;
      var dups := DuplicateRids(legs);
      if dups != {} {
        return None;
      }
      var ok := [];
      for i := 0 to |legs|
        invariant Valid() && ok == ValidConfigs(legs[..i])
        invariant State() == old(State()).(flow := PlanLegs(old(State()).flow, legs[..i]), gated := false)
      {
        var leg := legs[i];
        assert legs[..i + 1][..i] == legs[..i];
        Admit(leg.rid);
        Note(leg.rid, PLANNED, leg.violations == [], Joined(leg.violations));
        if leg.violations == [] {
          ok := ok + [Config(leg.rid, leg.name)];
        }
      }
      assert legs[..|legs|] == legs;
      configs := ok;
      valid := Some(|ok|);
      PlanKeeps(old(State()), legs);
    }

    method MarkGate(ok: bool, reason: string)
      requires Valid()
      modifies cf
      ensures Valid()
      ensures State() == old(State()).(flow := GateMarks(old(State()).flow, configs, ok, reason))
    {
      ghost var goal := GateMarks(cf.Contents(), configs, ok, reason);
      for i := 0 to |configs|
        invariant Valid() && goal == GateMarks(cf.Contents(), configs[i..], ok, reason)
      {
        ghost var f, left := cf.Contents(), configs[i..];
        Note(configs[i].rid, LAUNCH_GATE, ok, reason);
        assert cf.Contents() == Marked(f, left[0].rid, LAUNCH_GATE, ok, reason);
        assert left[1..] == configs[i + 1..];
      }
    }

    /** `reason` is the text of the violations. */
    method GateLaunch(launched: seq<Config>, reason: string) returns (v: seq<GateViolation>)
      requires Valid()
      modifies `gated, cf
      ensures Valid()
      ensures State() == Gate(old(State()), launched, reason)
      ensures v == [] <==> gated
    {
      v := LaunchGate(configs, launched);
      MarkGate(v == [], if v == [] then "" else reason);
      gated := v == [];
    }

    method Pass(rid: string, first: nat, last: nat)
      requires Valid() && first <= last <= STAGES
      modifies cf
      ensures Valid()
      ensures State() == old(State()).(flow := PassStages(old(State()).flow, rid, first, last))
    {
      ghost var goal := PassStages(State().flow, rid, first, last);
      for i := first to last
        invariant Valid() && goal == PassStages(cf.Contents(), rid, i, last)
      {
        ghost var f := cf.Contents();
        Note(rid, i, true, "");
        assert cf.Contents() == Marked(f, rid, i, true, "");
        assert PassStages(f, rid, i, last) == PassStages(Marked(f, rid, i, true, ""), rid, i + 1, last);
      }
    }

    method Ingest(rid: string, s: Shipment) returns (status: Status)
      requires Valid() && s.Parcel? && s.products.Dict?
      modifies `ingested, `corpus, cf
      ensures Valid()
      ensures (State(), status) == CampaignModel.Ingest(old(State()), rid, s)
    {
      var content := HashProducts(s.products.value);
      if content.None? {
        Note(rid, REGISTERED_STAGE, false, "unhashable products");
        return REJECTED;
      }
      if rid in ingested {
        Note(rid, REGISTERED_STAGE, true, "");
        if ingested[rid] == content.value {
          return SKIP_OK;
        }
        Admit(rid + ".conflict");
        Pass(rid + ".conflict", 0, REGISTERED_STAGE);
        Note(rid + ".conflict", REGISTERED_STAGE, false, "CONFLICT");
        return CONFLICT;
      }
      corpus := corpus + [(rid, s)];
      ingested := ingested[rid := content.value];
      Note(rid, REGISTERED_STAGE, true, "");
      status := REGISTERED;
    }

    method Govern(rid: string, s: Shipment) returns (status: Status)
      requires Valid()
      modifies `ingested, `corpus, cf
      ensures Valid()
      ensures (State(), status) == CampaignModel.Govern(old(State()), rid, s, required)
    {
      Note(rid, COMPLETED, true, "");
      if !WellShaped(s) {
        Note(rid, SHIPPED, false, "malformed shipment");
        return REJECTED;
      }
      Note(rid, SHIPPED, true, "");
      var v := VerifyShipment(s, required);
      if v != [] {
        Note(rid, VERIFIED, false, "violations");
        return REJECTED;
      }
      Note(rid, VERIFIED, true, "");
      status := Ingest(rid, s);
    }

    method OnSkip(cfg: Config, done: map<string, Shipment>) returns (status: Status)
      requires Valid()
      modifies `ingested, `corpus, cf
      ensures Valid()
      ensures (State(), status) == CampaignModel.OnSkip(old(State()), cfg, Setting(required, done))
    {
      if cfg.rid in ingested {
        Pass(cfg.rid, COMPLETED, STAGES);
        return SKIP_OK;
      }
      if cfg.name in done {
        status := Govern(cfg.rid, done[cfg.name]);
        return;
      }
      Note(cfg.rid, COMPLETED, false, "skip signaled but no DONE.json result");
      status := LOST;
    }

    method ExecuteLeg(cfg: Config, outcome: RunOutcome, done: map<string, Shipment>) returns (status: Status)
      requires Valid()
      modifies `ingested, `corpus, cf
      ensures Valid()
      ensures (State(), status) == CampaignModel.ExecuteLeg(old(State()), cfg, outcome, Setting(required, done))
    {
      AdmitIfNew(cfg.rid);
      match outcome {
        case Died(message) =>
          Note(cfg.rid, COMPLETED, false, "HOST_LOST: " + message);
          status := LOST;
        case Shipped(None) =>
          status := OnSkip(cfg, done);
        case Shipped(Some(s)) =>
          status := Govern(cfg.rid, s);
      }
    }

    method ExecuteRecord(cfg: Config, rec: Record, done: map<string, Shipment>) returns (status: Status)
      requires Valid()
      modifies `ingested, `corpus, cf
      ensures Valid()
      ensures (State(), status) == PlannedRecord(old(State()), cfg, rec, Setting(required, done))
    {
      AdmitIfNew(cfg.rid);
      match rec.result {
        case None =>
          if rec.skipped {
            status := OnSkip(cfg, done);
          } else {
            Note(cfg.rid, COMPLETED, false, "no result (host lost)");
            status := LOST;
          }
        case Some(s) =>
          status := Govern(cfg.rid, s);
      }
    }

    /** Refused outright without a passing gate; otherwise the report covers every record. When
        the dispatch raises after some records, or hands over something that is no record, the
        exception leaves what those records did, and no leg is reconciled. */
    method ExecuteFleet(recs: seq<Record>, faulty: bool, done: map<string, Shipment>)
        returns (report: Result<Report, FleetError>)
      requires Valid()
      modifies `ingested, `corpus, cf
      ensures Valid()
      ensures report.Err? <==> !old(gated) || faulty
      ensures !old(gated) ==> report == Err(NotGated) && State() == old(State())
      ensures old(gated) && faulty ==>
                && report == Err(DispatchRaised)
                && State() == FleetRecords(old(State()), recs, Setting(required, done)).0
      ensures report.Ok? ==>
                (State(), report.value) == CampaignModel.ExecuteFleet(old(State()), recs, Setting(required, done))
    {
      if !gated {
        return Err(NotGated);
      }
      ghost var c, env := State(), Setting(required, done);
      var byName := ConfigsByName(configs);
      var out: Report := map[];
      for i := 0 to |recs|
        invariant Valid()
        invariant (State(), out) == FleetRecords(c, recs[..i], env)
      {
        assert recs[..i + 1][..i] == recs[..i];
        out := OneRecord(byName, recs[i], out, done);
      }
      assert recs[..|recs|] == recs;
      if faulty {
        return Err(DispatchRaised);
      }
      out := LoseUnreported(out);
      report := Ok(out);
    }

    method OneRecord(byName: map<string, Config>, rec: Record, before: Report, done: map<string, Shipment>)
        returns (out: Report)
      requires Valid()
      requires forall name :: (if name in byName then Some(byName[name]) else None) == ByName(configs, name)
      modifies `ingested, `corpus, cf
      ensures Valid()
      ensures (State(), out) == FleetRecord(old(State()), before, rec, Setting(required, done))
    {
      out := before;
      if rec.run.Named? && rec.run.name in byName {
        var cfg := byName[rec.run.name];
        if cfg.rid in out {
          Admit(cfg.rid + ".dup");
          Note(cfg.rid + ".dup", COMPLETED, false, "duplicate dispatch record");
        } else {
          var status := ExecuteRecord(cfg, rec, done);
          out := out[cfg.rid := status];
        }
      } else {
        var key := Unused(KeyText(rec.run), Rids(configs) + out.Keys);
        Admit(key);
        Note(key, COMPLETED, false, "unplanned run name");
        out := out[key := REJECTED];
      }
    }

    method LoseUnreported(before: Report) returns (out: Report)
      requires Valid()
      modifies cf
      ensures Valid()
      ensures (State(), out) == Reconcile(old(State()), before, configs)
    {
      out := before;
      for i := 0 to |configs|
        invariant Valid()
        invariant (State(), out) == Reconcile(old(State()), before, configs[..i])
      {
        assert configs[..i + 1][..i] == configs[..i];
        if configs[i].rid !in out {
          Note(configs[i].rid, COMPLETED, false, "dispatch returned no record");
          out := out[configs[i].rid := LOST];
        }
      }
      assert configs[..|configs|] == configs;
    }
  }

  method ConfigsByName(configs: seq<Config>) returns (m: map<string, Config>)
    ensures forall name :: (if name in m then Some(m[name]) else None) == ByName(configs, name)
  {
    m := map[];
    for i := 0 to |configs|
      invariant forall name :: (if name in m then Some(m[name]) else None) == ByName(configs[..i], name)
    {
      assert configs[..i + 1][..i] == configs[..i];
      m := m[configs[i].name := configs[i]];
    }
    assert configs[..|configs|] == configs;
  }

  method Unused(wanted: string, taken: set<string>) returns (key: string)
    ensures key == FreshKey(wanted, taken)
  {
    key := wanted;
    while key in taken
      invariant FreshKey(key, taken) == FreshKey(wanted, taken)
      decreases AtLeastAsLong(key, taken)
    {
      LongerKeysAreFewer(key, taken);
      key := key + ".unplanned";
    }
  }
}

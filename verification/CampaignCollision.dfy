/** Where the honesty of `execute_fleet` ends: bookkeeping rows that share a planned leg's name. */
module CampaignCollision {
  import opened Prelude
  import opened CutFlow
  import opened Shipment
  import opened CampaignModel
  import opened CampaignFleet

  /** A verified shipment: one product with that text, its hash beside it, every blob attested. */
  function Good(text: string, required: map<string, string>): Shipment {
    Parcel(Dict(Products(map["x" := Doc(text, true)], true)), Dict(map["x" := OfDoc(text)]), Dict(required))
  }

  lemma GoodIsVerified(text: string, required: map<string, string>)
    ensures WellShaped(Good(text, required)) && Verified(Good(text, required), required)
    ensures HashProducts(Good(text, required).products.value) == Some(OfProducts(map["x" := text]))
  {
    var items := map["x" := Doc(text, true)];
    assert (map n | n in items :: items[n].text) == map["x" := text];
  }

  /** A text whose digest is not the one the corpus holds. */
  lemma OtherContent(known: Digest) returns (text: string)
    ensures OfProducts(map["x" := text]) != known
  {
    assert map["x" := "a"]["x"] != map["x" := "b"]["x"];
    text := if OfProducts(map["x" := "a"]) != known then "a" else "b";
  }

  lemma PlannedLookup(c: Campaign, p: Config)
    requires DistinctConfigs(c.configs) && p in c.configs
    ensures Lookup(c.configs, Named(p.name)) == Some(p)
  {
    ByNameFinds(c.configs, p.name);
    SameNameSameConfig(c.configs, ByName(c.configs, p.name).value, p);
  }

  /** Reconciliation leaves reported legs alone. */
  lemma {:induction false} ReconcileKeeps(c: Campaign, out: Report, configs: seq<Config>, rid: string)
    requires rid in out
    ensures var (d, o) := Reconcile(c, out, configs);
            SameRow(c, d, rid) && rid in o && o[rid] == out[rid]
  {
    if configs != [] {
      ReconcileKeeps(c, out, configs[..|configs| - 1], rid);
    }
  }

  lemma FleetRecordsExtend(c: Campaign, recs: seq<Record>, rec: Record, env: Setting)
    ensures FleetRecords(c, recs + [rec], env)
         == FleetRecord(FleetRecords(c, recs, env).0, FleetRecords(c, recs, env).1, rec, env)
  {
    assert (recs + [rec])[..|recs|] == recs;
  }

  /** A report that calls a leg a success while its row shows a drop. */
  lemma LieIsIncoherent(c: Campaign, recs: seq<Record>, env: Setting, d: Campaign, out: Report, rid: string)
    requires (d, out) == FleetRecords(c, recs, env)
    requires rid in out && Succeeded(out[rid]) && rid in d.flow && DroppedWithReason(d.flow[rid])
    ensures !Coherent(c, recs, env)
  {
    ReconcileKeeps(d, out, c.configs, rid);
    var e, o := Reconcile(d, out, c.configs).0, Reconcile(d, out, c.configs).1;
    assert !AllPassed(e.flow[rid]);
    assert !Agrees(e, o);
    assert ExecuteFleet(c, recs, env) == (e, o);
  }

  function GoodRecord(name: string, text: string, env: Setting): Record {
    Record(Named(name), Some(Good(text, env.required)), false)
  }

  lemma GoodFirst(c: Campaign, p: Config, env: Setting) returns (d: Campaign, status: Status)
    requires Ready(c) && p in c.configs
    ensures FleetRecords(c, [GoodRecord(p.name, "a", env)], env) == (d, map[p.rid := status])
    ensures Succeeded(status) && Tells(c, d, p.rid, status)
  {
    var rec := GoodRecord(p.name, "a", env);
    GoodIsVerified("a", env.required);
    PlannedLookup(c, p);
    PlannedRecordTells(c, p, rec, env);
    d, status := PlannedRecord(c, p, rec, env).0, PlannedRecord(c, p, rec, env).1;
    FleetRecordsExtend(c, [], rec, env);
    assert [] + [rec] == [rec];
  }

  /** A leg whose rid is another leg's duplicate row: it succeeds, the other leg is reported
      twice, and the success is left beside a dropped row. */
  lemma DuplicateRowLies(c: Campaign, p: Config, r: Config, env: Setting) returns (recs: seq<Record>)
    requires Ready(c) && p in c.configs && r in c.configs && p.rid == r.rid + ".dup"
    ensures !Coherent(c, recs, env)
  {
    var lost := Record(Named(r.name), None, false);
    var one := [GoodRecord(p.name, "a", env)];
    var d, status := GoodFirst(c, p, env);
    assert p.rid != r.rid by { assert |p.rid| > |r.rid|; }
    PlannedLookup(c, r);
    FleetRecordsExtend(c, one, lost, env);
    FleetRecordsExtend(c, one + [lost], lost, env);
    recs := one + [lost] + [lost];
    ghost var e, out := LostTwice(d, map[p.rid := status], r, lost, env);
    LieIsIncoherent(c, recs, env, e, out, p.rid);
  }

  /** Two losses of one leg: the second is booked as a duplicate. */
  lemma LostTwice(d: Campaign, out: Report, r: Config, lost: Record, env: Setting) returns (e: Campaign, o: Report)
    requires Lookup(d.configs, lost.run) == Some(r) && lost.result.None? && !lost.skipped && r.rid !in out
    ensures var once := FleetRecord(d, out, lost, env); (e, o) == FleetRecord(once.0, once.1, lost, env)
    ensures o == out[r.rid := LOST]
    ensures r.rid + ".dup" in e.flow && DroppedWithReason(e.flow[r.rid + ".dup"])
  {
    var once := FleetRecord(d, out, lost, env);
    e, o := FleetRecord(once.0, once.1, lost, env).0, FleetRecord(once.0, once.1, lost, env).1;
    DropTells(EnterRow(STAGES), COMPLETED, "duplicate dispatch record");
  }

  /** A leg whose rid is the conflict row of a leg already in the corpus. */
  lemma ConflictRowLies(c: Campaign, p: Config, r: Config, env: Setting) returns (recs: seq<Record>)
    requires Ready(c) && p in c.configs && r in c.configs
    requires p.rid == r.rid + ".conflict" && r.rid in c.ingested
    ensures !Coherent(c, recs, env)
  {
    var text := OtherContent(c.ingested[r.rid]);
    var one := [GoodRecord(p.name, "a", env)];
    var other := GoodRecord(r.name, text, env);
    var d, status := GoodFirst(c, p, env);
    assert |p.rid| > |r.rid|;
    PlannedLookup(c, r);
    assert SameRow(c, d, r.rid) by { assert |p.rid + ".conflict"| > |r.rid|; }
    assert Known(d, r.rid) == Known(c, r.rid);
    GoodIsVerified(text, env.required);
    PlannedRecordTells(d, r, other, env);
    FleetRecordsExtend(c, one, other, env);
    recs := one + [other];
    GovernConflicts(d, r.rid, other.result.value, env.required);
    var end := FleetRecords(c, recs, env);
    LieIsIncoherent(c, recs, env, end.0, end.1, p.rid);
  }

  lemma GovernConflicts(c: Campaign, rid: string, s: Shipment, required: map<string, string>)
    requires WellShaped(s) && Verified(s, required) && HashProducts(s.products.value).Some?
    requires rid in c.ingested && HashProducts(s.products.value) != Some(c.ingested[rid])
    ensures var (d, status) := Govern(c, rid, s, required);
            status == CONFLICT && rid + ".conflict" in d.flow && DroppedWithReason(d.flow[rid + ".conflict"])
  {
    var f := Marked(Marked(Marked(Marked(c.flow, rid, COMPLETED, true, ""), rid, SHIPPED, true, ""),
                    rid, VERIFIED, true, ""), rid, REGISTERED_STAGE, true, "");
    ConflictRowTells(f, rid);
  }

  /** When `execute_fleet` can be trusted whatever the dispatch returns: exactly when no planned
      rid is another planned leg's bookkeeping name. */
  lemma FleetIsHonestExactly(c: Campaign, env: Setting)
    requires Ready(c)
    ensures (forall recs :: Coherent(c, recs, env)) <==> !Collides(c)
  {
    if Collides(c) {
      var p, r :| p in c.configs && r in c.configs && CollidesWith(c, p, r);
      var recs;
      if p.rid == r.rid + ".dup" {
        recs := DuplicateRowLies(c, p, r, env);
      } else {
        recs := ConflictRowLies(c, p, r, env);
      }
      assert !Coherent(c, recs, env);
    } else {
      forall recs ensures Coherent(c, recs, env) {
        FleetIsTotal(c, recs, env);
      }
    }
  }

  // ---- planning and the launch gate establish readiness

  ghost predicate DistinctNames(legs: seq<PlanLeg>) {
    forall i, j :: 0 <= i < j < |legs| ==> legs[i].name != legs[j].name
  }

  ghost predicate PlannedRow(f: FleetFlow, rid: string) {
    rid in f && f[rid].cells[PLANNED] == Passed
  }

  lemma {:induction false} PlanLegsPass(f: FleetFlow, legs: seq<PlanLeg>)
    requires DistinctRids(legs) && DistinctNames(legs)
    ensures DistinctConfigs(ValidConfigs(legs))
    ensures forall cfg :: cfg in ValidConfigs(legs) ==>
              && PlannedRow(PlanLegs(f, legs), cfg.rid)
              && exists leg :: leg in legs && leg.rid == cfg.rid && leg.name == cfg.name
  {
    if legs != [] {
      var n := |legs| - 1;
      PlanLegsPass(f, legs[..n]);
      assert legs == legs[..n] + [legs[n]];
    }
  }

  /** Rows past planning stay so; rows already gated, and those still to be marked, end gated. */
  lemma {:induction false} GateMarksPass(f: FleetFlow, configs: seq<Config>, rid: string)
    requires PlannedRow(f, rid)
    requires f[rid].cells[LAUNCH_GATE] == Passed || rid in Rids(configs)
    ensures rid in GateMarks(f, configs, true, "") && GateRow(GateMarks(f, configs, true, "")[rid])
    decreases configs
  {
    if configs != [] {
      assert configs == [configs[0]] + configs[1..];
      GateMarksPass(Marked(f, configs[0].rid, LAUNCH_GATE, true, ""), configs[1..], rid);
    }
  }

  /** From any state, planning legs with distinct rids and run names and passing the gate
      makes the campaign ready; the gate passes exactly when the launched run names are the
      planned ones. */
  lemma PlanAndGateMakeReady(c: Campaign, legs: seq<PlanLeg>, launched: seq<Config>, reason: string)
    requires DistinctRids(legs) && DistinctNames(legs)
    ensures var d := Gate(Plan(c, legs), launched, reason);
            && (d.gated <==> NamesOf(ValidConfigs(legs)) == NamesOf(launched))
            && (d.gated ==> Ready(d) && d.configs == ValidConfigs(legs))
  {
    PlanLegsPass(c.flow, legs);
    var p := Plan(c, legs);
    forall cfg | cfg in p.configs
      ensures cfg.rid in GateMarks(p.flow, p.configs, true, "")
      ensures GateRow(GateMarks(p.flow, p.configs, true, "")[cfg.rid])
    {
      GateMarksPass(p.flow, p.configs, cfg.rid);
    }
  }
}

/** What `execute_fleet` does to the rows of legs that planning rejected. */
module CampaignRejected {
  import opened Prelude
  import opened CutFlow
  import opened Shipment
  import opened CampaignModel
  import opened CampaignFleet

  /** The planning stage of a tracked leg is dropped. */
  ghost predicate PlanDropped(f: FleetFlow, leg: string) {
    leg in f && f[leg].cells[PLANNED] == Dropped
  }

  /** How many dispatch records went to the planned leg with this rid. */
  function RecordsFor(configs: seq<Config>, recs: seq<Record>, rid: string): nat {
    if recs == [] then 0
    else
      var found := Lookup(configs, recs[|recs| - 1].run);
      RecordsFor(configs, recs[..|recs| - 1], rid) + if found.Some? && found.value.rid == rid then 1 else 0
  }

  /** The call took the leg's row for its own bookkeeping: as the key of an unplanned record, or
      as the duplicate or conflict row of a planned leg. */
  ghost predicate Reused(configs: seq<Config>, recs: seq<Record>, out: Report, leg: string) {
    || leg in out
    || (exists r :: r in configs && leg == r.rid + ".dup" && RecordsFor(configs, recs, r.rid) >= 2)
    || (exists r :: r in configs && leg == r.rid + ".conflict" && r.rid in out && out[r.rid] == CONFLICT)
  }

  /** So far the row is as it was, or was taken and shows no planning drop any more. */
  ghost predicate RowFate(c0: Campaign, c: Campaign, out: Report, recs: seq<Record>, leg: string) {
    && c.configs == c0.configs
    && (forall rid :: rid in Rids(c0.configs) ==> (rid in out <==> RecordsFor(c0.configs, recs, rid) >= 1))
    && if Reused(c0.configs, recs, out, leg) then leg in c.flow && !PlanDropped(c.flow, leg) else SameRow(c0, c, leg)
  }

  lemma SideRowHasNoPlanDrop(f: FleetFlow, leg: string, reason: string)
    ensures var g := Marked(Entered(f, leg), leg, COMPLETED, false, reason);
            leg in g && !PlanDropped(g, leg) && OnlyRow(f, g, leg)
  {
  }

  lemma ConflictRowHasNoPlanDrop(f: FleetFlow, rid: string)
    ensures var g := ConflictRow(f, rid);
            rid + ".conflict" in g && !PlanDropped(g, rid + ".conflict") && OnlyRow(f, g, rid + ".conflict")
  {
    var leg := rid + ".conflict";
    var e := Entered(f, leg);
    ConflictRowTells(f, rid);
    PassStagesOnlyOwn(e, leg, 0, REGISTERED_STAGE);
    assert PassStages(e, leg, 0, REGISTERED_STAGE)[leg].cells[PLANNED] == Passed;
  }

  /** What the governance of one leg does to another row. */
  ghost predicate OtherRow(c: Campaign, d: Campaign, rid: string, status: Status, leg: string) {
    && d.configs == c.configs
    && if status == CONFLICT && leg == rid + ".conflict" then leg in d.flow && !PlanDropped(d.flow, leg)
       else SameRow(c, d, leg)
  }

  lemma AcceptOtherRow(c: Campaign, rid: string, s: Shipment, content: Digest, leg: string)
    requires leg != rid
    ensures var (d, status) := Accept(c, rid, s, content); OtherRow(c, d, rid, status, leg)
  {
    ConflictRowHasNoPlanDrop(c.flow, rid);
  }

  lemma GovernOtherRow(c: Campaign, rid: string, s: Shipment, required: map<string, string>, leg: string)
    requires leg != rid
    ensures var (d, status) := Govern(c, rid, s, required); OtherRow(c, d, rid, status, leg)
  {
    var shaped := c.(flow := Marked(c.flow, rid, COMPLETED, true, ""));
    assert SameRow(c, shaped, leg);
    if WellShaped(s) {
      var content := shaped.(flow := Marked(shaped.flow, rid, SHIPPED, true, ""));
      assert SameRow(c, content, leg);
      if Verified(s, required) {
        var verified := content.(flow := Marked(content.flow, rid, VERIFIED, true, ""));
        assert SameRow(c, verified, leg);
        if HashProducts(s.products.value).Some? {
          var registered := verified.(flow := Marked(verified.flow, rid, REGISTERED_STAGE, true, ""));
          assert SameRow(c, registered, leg);
          AcceptOtherRow(registered, rid, s, HashProducts(s.products.value).value, leg);
        }
      }
    }
  }

  lemma {:induction false} PassStagesOtherRow(f: FleetFlow, rid: string, first: nat, last: nat, leg: string)
    requires first <= last <= STAGES && leg != rid
    ensures var g := PassStages(f, rid, first, last); (leg in f <==> leg in g) && (leg in f ==> g[leg] == f[leg])
    decreases last - first
  {
    if first < last {
      PassStagesOtherRow(Marked(f, rid, first, true, ""), rid, first + 1, last, leg);
    }
  }

  lemma PlannedOtherRow(c: Campaign, cfg: Config, rec: Record, env: Setting, leg: string)
    requires leg != cfg.rid
    ensures var (d, status) := PlannedRecord(c, cfg, rec, env); OtherRow(c, d, cfg.rid, status, leg)
  {
    var d := if cfg.rid in c.flow then c else c.(flow := Entered(c.flow, cfg.rid));
    assert SameRow(c, d, leg);
    if rec.result.Some? {
      GovernOtherRow(d, cfg.rid, rec.result.value, env.required, leg);
    } else if rec.skipped {
      if cfg.rid in d.ingested {
        PassStagesOtherRow(d.flow, cfg.rid, COMPLETED, STAGES, leg);
      } else if cfg.name in env.done {
        GovernOtherRow(d, cfg.rid, env.done[cfg.name], env.required, leg);
      }
    }
  }

  lemma OneRecordMore(configs: seq<Config>, recs: seq<Record>, rec: Record, rid: string)
    ensures RecordsFor(configs, recs + [rec], rid)
         == RecordsFor(configs, recs, rid)
            + if Lookup(configs, rec.run).Some? && Lookup(configs, rec.run).value.rid == rid then 1 else 0
  {
    assert (recs + [rec])[..|recs|] == recs;
  }

  lemma StrangerFate(c0: Campaign, c: Campaign, out: Report, recs: seq<Record>, rec: Record,
                     key: string, d: Campaign, leg: string)
    requires leg !in Rids(c0.configs) && RowFate(c0, c, out, recs, leg) && Lookup(c.configs, rec.run).None?
    requires key !in Rids(c.configs) && d.configs == c.configs
    requires OnlyRow(c.flow, d.flow, key) && key in d.flow && !PlanDropped(d.flow, key)
    ensures RowFate(c0, d, out[key := REJECTED], recs + [rec], leg)
  {
    forall rid ensures RecordsFor(c0.configs, recs + [rec], rid) == RecordsFor(c0.configs, recs, rid) {
      OneRecordMore(c0.configs, recs, rec, rid);
    }
    forall r | r in c0.configs ensures r.rid != key {
      assert r.rid in Rids(c0.configs);
    }
  }

  lemma DuplicateFate(c0: Campaign, c: Campaign, out: Report, recs: seq<Record>, rec: Record,
                      cfg: Config, d: Campaign, leg: string)
    requires leg !in Rids(c0.configs) && RowFate(c0, c, out, recs, leg) && Lookup(c.configs, rec.run) == Some(cfg)
    requires cfg in c.configs && cfg.rid in out && d.configs == c.configs
    requires OnlyRow(c.flow, d.flow, cfg.rid + ".dup") && cfg.rid + ".dup" in d.flow
    requires !PlanDropped(d.flow, cfg.rid + ".dup")
    ensures RowFate(c0, d, out, recs + [rec], leg)
  {
    assert cfg.rid in Rids(c0.configs) && RecordsFor(c0.configs, recs, cfg.rid) >= 1;
    forall rid
      ensures RecordsFor(c0.configs, recs + [rec], rid)
           == RecordsFor(c0.configs, recs, rid) + if rid == cfg.rid then 1 else 0
    {
      OneRecordMore(c0.configs, recs, rec, rid);
    }
    if leg == cfg.rid + ".dup" {
      assert Reused(c0.configs, recs + [rec], out, leg);
    } else {
      SameUse(c0.configs, recs, recs + [rec], out, out, leg, cfg);
    }
  }

  /** Another record of one leg makes no other use of the row. */
  lemma SameUse(configs: seq<Config>, recs: seq<Record>, more: seq<Record>, out: Report, o: Report,
                leg: string, cfg: Config)
    requires leg != cfg.rid && leg != cfg.rid + ".dup"
    requires forall rid :: rid != cfg.rid ==> RecordsFor(configs, more, rid) == RecordsFor(configs, recs, rid)
    requires forall key :: key != cfg.rid ==> (key in o <==> key in out) && (key in o ==> o[key] == out[key])
    requires (leg == cfg.rid + ".conflict" ==>
                (cfg.rid in o && o[cfg.rid] == CONFLICT <==> cfg.rid in out && out[cfg.rid] == CONFLICT))
    ensures Reused(configs, more, o, leg) <==> Reused(configs, recs, out, leg)
  {
  }

  lemma GovernedFate(c0: Campaign, c: Campaign, out: Report, recs: seq<Record>, rec: Record,
                     cfg: Config, d: Campaign, status: Status, leg: string)
    requires leg !in Rids(c0.configs) && RowFate(c0, c, out, recs, leg) && Lookup(c.configs, rec.run) == Some(cfg)
    requires cfg in c.configs && cfg.rid !in out && OtherRow(c, d, cfg.rid, status, leg)
    ensures RowFate(c0, d, out[cfg.rid := status], recs + [rec], leg)
  {
    var o := out[cfg.rid := status];
    assert cfg.rid in Rids(c0.configs) && RecordsFor(c0.configs, recs, cfg.rid) == 0;
    forall rid
      ensures RecordsFor(c0.configs, recs + [rec], rid)
           == RecordsFor(c0.configs, recs, rid) + if rid == cfg.rid then 1 else 0
    {
      OneRecordMore(c0.configs, recs, rec, rid);
    }
    if status == CONFLICT && leg == cfg.rid + ".conflict" {
      assert Reused(c0.configs, recs + [rec], o, leg);
    } else {
      FirstUse(c0.configs, recs, recs + [rec], out, o, leg, cfg);
    }
  }

  /** The first record of a leg uses no row but the leg's conflict row. */
  lemma FirstUse(configs: seq<Config>, recs: seq<Record>, more: seq<Record>, out: Report, o: Report,
                leg: string, cfg: Config)
    requires leg != cfg.rid && cfg.rid in o && RecordsFor(configs, more, cfg.rid) == 1 && cfg.rid !in out
    requires RecordsFor(configs, recs, cfg.rid) == 0
    requires forall rid :: rid != cfg.rid ==> RecordsFor(configs, more, rid) == RecordsFor(configs, recs, rid)
    requires forall key :: key != cfg.rid ==> (key in o <==> key in out) && (key in o ==> o[key] == out[key])
    requires o[cfg.rid] == CONFLICT ==> leg != cfg.rid + ".conflict"
    ensures Reused(configs, more, o, leg) <==> Reused(configs, recs, out, leg)
  {
  }

  lemma FleetRecordRowFate(c0: Campaign, c: Campaign, out: Report, recs: seq<Record>, rec: Record, env: Setting,
                           leg: string)
    requires leg !in Rids(c0.configs) && RowFate(c0, c, out, recs, leg)
    ensures var (d, o) := FleetRecord(c, out, rec, env); RowFate(c0, d, o, recs + [rec], leg)
  {
    var d := FleetRecord(c, out, rec, env).0;
    match Lookup(c.configs, rec.run) {
      case None =>
        var key := FreshKey(KeyText(rec.run), Rids(c.configs) + out.Keys);
        SideRowHasNoPlanDrop(c.flow, key, "unplanned run name");
        StrangerFate(c0, c, out, recs, rec, key, d, leg);
      case Some(cfg) =>
        LookupFinds(c.configs, rec.run);
        if cfg.rid in out {
          SideRowHasNoPlanDrop(c.flow, cfg.rid + ".dup", "duplicate dispatch record");
          DuplicateFate(c0, c, out, recs, rec, cfg, d, leg);
        } else {
          PlannedOtherRow(c, cfg, rec, env, leg);
          GovernedFate(c0, c, out, recs, rec, cfg, d, PlannedRecord(c, cfg, rec, env).1, leg);
        }
    }
  }

  lemma LookupFinds(configs: seq<Config>, run: RunField)
    requires Lookup(configs, run).Some?
    ensures Lookup(configs, run).value in configs && Lookup(configs, run).value.rid in Rids(configs)
  {
    ByNameFinds(configs, run.name);
  }

  lemma NoRecordsRowFate(c: Campaign, leg: string)
    ensures RowFate(c, c, map[], [], leg)
  {
    assert forall rid :: RecordsFor(c.configs, [], rid) == 0;
  }

  lemma {:induction false} FleetRecordsRowFate(c: Campaign, recs: seq<Record>, env: Setting, leg: string)
    requires leg !in Rids(c.configs)
    ensures var (d, out) := FleetRecords(c, recs, env); RowFate(c, d, out, recs, leg)
  {
    if recs == [] {
      NoRecordsRowFate(c, leg);
    } else {
      var n := |recs| - 1;
      FleetRecordsRowFate(c, recs[..n], env, leg);
      var (d, out) := FleetRecords(c, recs[..n], env);
      assert recs[..n] + [recs[n]] == recs;
      FleetRecordRowFate(c, d, out, recs[..n], recs[n], env, leg);
    }
  }

  lemma {:induction false} ReconcileRowFate(c: Campaign, out: Report, configs: seq<Config>, leg: string)
    requires leg !in Rids(configs)
    ensures var (d, o) := Reconcile(c, out, configs);
            && SameRow(c, d, leg) && (forall key :: key in out ==> key in o && o[key] == out[key])
            && (forall key :: key in o && key !in out ==> key in Rids(configs) && o[key] == LOST)
  {
    if configs != [] {
      var n := |configs| - 1;
      assert configs == configs[..n] + [configs[n]];
      assert configs[n].rid in Rids(configs);
      ReconcileRowFate(c, out, configs[..n], leg);
    }
  }

  lemma TakingIsReused(c: Campaign, recs: seq<Record>, env: Setting, leg: string)
    requires leg !in Rids(c.configs) && PlanDropped(c.flow, leg)
    ensures var (d, out) := FleetRecords(c, recs, env);
            var e := ExecuteFleet(c, recs, env).0;
            && (PlanDropped(e.flow, leg) <==> !Reused(c.configs, recs, out, leg))
            && (!Reused(c.configs, recs, out, leg) ==> SameRow(c, e, leg))
  {
    FleetRecordsRowFate(c, recs, env, leg);
    var (d, out) := FleetRecords(c, recs, env);
    ReconcileRowFate(d, out, c.configs, leg);
  }

  // ---- the same, foreseen from the dispatch list

  /** The keys under which unplanned records are going to be reported. */
  function StrangerKeys(configs: seq<Config>, recs: seq<Record>): set<string> {
    if recs == [] then {}
    else
      var rec := recs[|recs| - 1];
      var keys := StrangerKeys(configs, recs[..|recs| - 1]);
      if Lookup(configs, rec.run).Some? then keys else keys + {FreshKey(KeyText(rec.run), Rids(configs) + keys)}
  }

  /** The first record that goes to the planned leg with this rid. */
  function FirstFor(configs: seq<Config>, recs: seq<Record>, rid: string): (first: Option<Record>)
    ensures first.Some? ==> Lookup(configs, first.value.run).Some?
  {
    if recs == [] then None
    else
      var earlier := FirstFor(configs, recs[..|recs| - 1], rid);
      var found := Lookup(configs, recs[|recs| - 1].run);
      if earlier.Some? then earlier
      else if found.Some? && found.value.rid == rid then Some(recs[|recs| - 1])
      else None
  }

  /** The status a planned leg's first record is going to earn, from the corpus before the call. */
  ghost function ForeseenStatus(c: Campaign, recs: seq<Record>, env: Setting, rid: string): Option<Status> {
    match FirstFor(c.configs, recs, rid)
    case None => None
    case Some(rec) => Some(RecordStatus(rec, Lookup(c.configs, rec.run).value, Known(c, rid), env))
  }

  /** What can be told before the call: the leg's rid is going to be the key of an unplanned
      record, the `.dup` of a planned leg with two records, or the `.conflict` of one whose first
      record brings other content than the corpus holds. */
  ghost predicate WillTake(c: Campaign, recs: seq<Record>, env: Setting, leg: string) {
    || leg in StrangerKeys(c.configs, recs)
    || (exists r :: r in c.configs && leg == r.rid + ".dup" && RecordsFor(c.configs, recs, r.rid) >= 2)
    || (exists r :: r in c.configs && leg == r.rid + ".conflict"
                    && ForeseenStatus(c, recs, env, r.rid) == Some(CONFLICT))
  }

  /** The status is the expected one, the plan stays, and so does another leg's corpus entry. */
  ghost predicate Earns(c: Campaign, d: Campaign, rid: string, status: Status, expected: Status, other: string) {
    d.configs == c.configs && status == expected && (other != rid ==> Known(d, other) == Known(c, other))
  }

  lemma GovernedContentStatus(c: Campaign, rid: string, s: Shipment, required: map<string, string>, other: string)
    requires WellShaped(s)
    ensures var (d, status) := GovernContent(c, rid, s, required);
            Earns(c, d, rid, status, GovernStatus(s, required, Known(c, rid)), other)
  {
  }

  lemma GovernedStatus(c: Campaign, rid: string, s: Shipment, required: map<string, string>, other: string)
    ensures var (d, status) := Govern(c, rid, s, required);
            Earns(c, d, rid, status, GovernStatus(s, required, Known(c, rid)), other)
  {
    if WellShaped(s) {
      var f := Marked(Marked(c.flow, rid, COMPLETED, true, ""), rid, SHIPPED, true, "");
      GovernedContentStatus(c.(flow := f), rid, s, required, other);
    }
  }

  lemma SkippedStatus(c: Campaign, cfg: Config, env: Setting, other: string)
    ensures var (d, status) := OnSkip(c, cfg, env);
            Earns(c, d, cfg.rid, status, RecordStatus(Record(Absent, None, true), cfg, Known(c, cfg.rid), env), other)
  {
    if cfg.rid !in c.ingested && cfg.name in env.done {
      GovernedStatus(c, cfg.rid, env.done[cfg.name], env.required, other);
    }
  }

  /** A record's status depends on the corpus alone, and it changes no other leg's entry there. */
  lemma PlannedStatus(c: Campaign, cfg: Config, rec: Record, env: Setting, other: string)
    ensures var (d, status) := PlannedRecord(c, cfg, rec, env);
            Earns(c, d, cfg.rid, status, RecordStatus(rec, cfg, Known(c, cfg.rid), env), other)
  {
    var d := if cfg.rid in c.flow then c else c.(flow := Entered(c.flow, cfg.rid));
    assert Known(d, cfg.rid) == Known(c, cfg.rid) && Known(d, other) == Known(c, other);
    match rec.result {
      case Some(s) => GovernedStatus(d, cfg.rid, s, env.required, other);
      case None => SkippedStatus(d, cfg, env, other);
    }
  }

  /** Keys outside the plan that the report has so far are those foreseen. */
  ghost predicate KeysForeseen(configs: seq<Config>, out: Report, recs: seq<Record>) {
    && (forall key :: key !in Rids(configs) ==> (key in out <==> key in StrangerKeys(configs, recs)))
    && (forall rid :: rid in Rids(configs) ==> rid !in StrangerKeys(configs, recs))
  }

  /** The report so far is as foreseen, and legs without a record are untouched in the corpus. */
  ghost predicate AsForeseen(c0: Campaign, c: Campaign, out: Report, recs: seq<Record>, env: Setting) {
    && c.configs == c0.configs && KeysForeseen(c0.configs, out, recs)
    && (forall rid :: rid in Rids(c0.configs) ==> RidForeseen(c0, c, out, recs, env, rid))
  }

  ghost predicate RidForeseen(c0: Campaign, c: Campaign, out: Report, recs: seq<Record>, env: Setting, rid: string) {
    match ForeseenStatus(c0, recs, env, rid)
    case None => rid !in out && Known(c, rid) == Known(c0, rid)
    case Some(status) => rid in out && out[rid] == status
  }

  lemma FirstForExtends(configs: seq<Config>, recs: seq<Record>, rec: Record, rid: string)
    ensures FirstFor(configs, recs + [rec], rid)
         == if FirstFor(configs, recs, rid).Some? then FirstFor(configs, recs, rid)
            else if Lookup(configs, rec.run).Some? && Lookup(configs, rec.run).value.rid == rid then Some(rec)
            else None
    ensures StrangerKeys(configs, recs + [rec])
         == StrangerKeys(configs, recs)
            + if Lookup(configs, rec.run).Some? then {}
              else {FreshKey(KeyText(rec.run), Rids(configs) + StrangerKeys(configs, recs))}
  {
    assert (recs + [rec])[..|recs|] == recs;
  }

  lemma StrangerKeyForeseen(configs: seq<Config>, out: Report, recs: seq<Record>, rec: Record, key: string)
    requires KeysForeseen(configs, out, recs) && Lookup(configs, rec.run).None?
    requires key == FreshKey(KeyText(rec.run), Rids(configs) + out.Keys)
    ensures KeysForeseen(configs, out[key := REJECTED], recs + [rec]) && key !in Rids(configs)
  {
    FirstForExtends(configs, recs, rec, "");
    assert Rids(configs) + out.Keys == Rids(configs) + StrangerKeys(configs, recs);
  }

  lemma PlannedKeyForeseen(configs: seq<Config>, out: Report, recs: seq<Record>, rec: Record, o: Report, rid: string)
    requires KeysForeseen(configs, out, recs) && Lookup(configs, rec.run).Some? && rid in Rids(configs)
    requires forall key :: key != rid ==> (key in o <==> key in out)
    ensures KeysForeseen(configs, o, recs + [rec])
  {
    FirstForExtends(configs, recs, rec, "");
  }

  /** A record that does not go to this leg leaves what is foreseen for it. */
  lemma OtherRidForeseen(c0: Campaign, c: Campaign, d: Campaign, out: Report, o: Report, recs: seq<Record>, rec: Record,
                         env: Setting, rid: string)
    requires RidForeseen(c0, c, out, recs, env, rid) && Known(d, rid) == Known(c, rid)
    requires (rid in o <==> rid in out) && (rid in o ==> o[rid] == out[rid])
    requires rid in out || Lookup(c0.configs, rec.run).None? || Lookup(c0.configs, rec.run).value.rid != rid
    ensures RidForeseen(c0, d, o, recs + [rec], env, rid)
  {
    FirstForExtends(c0.configs, recs, rec, rid);
  }

  /** A leg's first record gives it the status foreseen. */
  lemma FirstRidForeseen(c0: Campaign, c: Campaign, d: Campaign, out: Report, status: Status, recs: seq<Record>,
                         rec: Record, env: Setting, cfg: Config)
    requires RidForeseen(c0, c, out, recs, env, cfg.rid) && cfg.rid !in out && Lookup(c0.configs, rec.run) == Some(cfg)
    requires status == RecordStatus(rec, cfg, Known(c, cfg.rid), env)
    ensures RidForeseen(c0, d, out[cfg.rid := status], recs + [rec], env, cfg.rid)
  {
    FirstForExtends(c0.configs, recs, rec, cfg.rid);
  }

  lemma StrangerAsForeseen(c0: Campaign, c: Campaign, out: Report, recs: seq<Record>, rec: Record, env: Setting,
                           key: string, d: Campaign)
    requires AsForeseen(c0, c, out, recs, env) && Lookup(c0.configs, rec.run).None?
    requires key == FreshKey(KeyText(rec.run), Rids(c0.configs) + out.Keys)
    requires d.configs == c.configs && d.ingested == c.ingested
    ensures AsForeseen(c0, d, out[key := REJECTED], recs + [rec], env)
  {
    StrangerKeyForeseen(c0.configs, out, recs, rec, key);
    forall rid | rid in Rids(c0.configs) ensures RidForeseen(c0, d, out[key := REJECTED], recs + [rec], env, rid) {
      OtherRidForeseen(c0, c, d, out, out[key := REJECTED], recs, rec, env, rid);
    }
  }

  lemma DuplicateAsForeseen(c0: Campaign, c: Campaign, out: Report, recs: seq<Record>, rec: Record, env: Setting,
                            cfg: Config, d: Campaign)
    requires AsForeseen(c0, c, out, recs, env) && Lookup(c0.configs, rec.run) == Some(cfg) && cfg.rid in out
    requires d.configs == c.configs && d.ingested == c.ingested
    ensures AsForeseen(c0, d, out, recs + [rec], env)
  {
    LookupFinds(c0.configs, rec.run);
    PlannedKeyForeseen(c0.configs, out, recs, rec, out, cfg.rid);
    forall rid | rid in Rids(c0.configs) ensures RidForeseen(c0, d, out, recs + [rec], env, rid) {
      OtherRidForeseen(c0, c, d, out, out, recs, rec, env, rid);
    }
  }

  lemma FirstAsForeseen(c0: Campaign, c: Campaign, out: Report, recs: seq<Record>, rec: Record, env: Setting,
                        cfg: Config, d: Campaign, status: Status)
    requires AsForeseen(c0, c, out, recs, env) && Lookup(c0.configs, rec.run) == Some(cfg) && cfg.rid !in out
    requires (d, status) == PlannedRecord(c, cfg, rec, env) && d.configs == c.configs
    ensures AsForeseen(c0, d, out[cfg.rid := status], recs + [rec], env)
  {
    LookupFinds(c0.configs, rec.run);
    PlannedKeyForeseen(c0.configs, out, recs, rec, out[cfg.rid := status], cfg.rid);
    forall rid | rid in Rids(c0.configs)
      ensures RidForeseen(c0, d, out[cfg.rid := status], recs + [rec], env, rid)
    {
      assert RidForeseen(c0, c, out, recs, env, rid);
      PlannedStatus(c, cfg, rec, env, rid);
      if rid == cfg.rid {
        FirstRidForeseen(c0, c, d, out, status, recs, rec, env, cfg);
      } else {
        OtherRidForeseen(c0, c, d, out, out[cfg.rid := status], recs, rec, env, rid);
      }
    }
  }

  /** One record's effect on the report, whichever of the three kinds it is. */
  lemma FleetRecordAsForeseen(c0: Campaign, c: Campaign, out: Report, recs: seq<Record>, rec: Record, env: Setting)
    requires AsForeseen(c0, c, out, recs, env)
    ensures var (d, o) := FleetRecord(c, out, rec, env); AsForeseen(c0, d, o, recs + [rec], env)
  {
    var d := FleetRecord(c, out, rec, env).0;
    match Lookup(c.configs, rec.run) {
      case None =>
        StrangerAsForeseen(c0, c, out, recs, rec, env, FreshKey(KeyText(rec.run), Rids(c.configs) + out.Keys), d);
      case Some(cfg) =>
        if cfg.rid in out {
          DuplicateAsForeseen(c0, c, out, recs, rec, env, cfg, d);
        } else {
          PlannedStatus(c, cfg, rec, env, cfg.rid);
          FirstAsForeseen(c0, c, out, recs, rec, env, cfg, d, PlannedRecord(c, cfg, rec, env).1);
        }
    }
  }

  lemma NoRecordsAsForeseen(c: Campaign, env: Setting)
    ensures AsForeseen(c, c, map[], [], env)
  {
    forall rid | rid in Rids(c.configs) ensures RidForeseen(c, c, map[], [], env, rid) {
    }
  }

  lemma {:induction false} FleetRecordsAsForeseen(c: Campaign, recs: seq<Record>, env: Setting)
    ensures var (d, out) := FleetRecords(c, recs, env); AsForeseen(c, d, out, recs, env)
  {
    if recs == [] {
      NoRecordsAsForeseen(c, env);
    } else {
      var n := |recs| - 1;
      FleetRecordsAsForeseen(c, recs[..n], env);
      var (d, out) := FleetRecords(c, recs[..n], env);
      assert recs[..n] + [recs[n]] == recs;
      FleetRecordAsForeseen(c, d, out, recs[..n], recs[n], env);
    }
  }

  lemma ReuseIsForeseen(c: Campaign, d: Campaign, out: Report, recs: seq<Record>, env: Setting, leg: string)
    requires AsForeseen(c, d, out, recs, env) && leg !in Rids(c.configs)
    ensures Reused(c.configs, recs, out, leg) <==> WillTake(c, recs, env, leg)
  {
    forall r | r in c.configs
      ensures r.rid in out && out[r.rid] == CONFLICT <==> ForeseenStatus(c, recs, env, r.rid) == Some(CONFLICT)
    {
      assert r.rid in Rids(c.configs);
      assert RidForeseen(c, d, out, recs, env, r.rid);
    }
  }

  /** What becomes of a leg that planning rejected, whatever the dispatch returns: its planning
      drop, and its whole row, survive the call exactly when its rid is not going to be taken for
      a record of an unplanned run, a duplicate or a conflict, which the dispatch list and the
      campaign tell beforehand. */
  lemma PlanningDropSurvivesExactly(c: Campaign, recs: seq<Record>, env: Setting, leg: string)
    requires leg !in Rids(c.configs) && PlanDropped(c.flow, leg)
    ensures var d := ExecuteFleet(c, recs, env).0;
            && (PlanDropped(d.flow, leg) <==> !WillTake(c, recs, env, leg))
            && (!WillTake(c, recs, env, leg) ==> SameRow(c, d, leg))
  {
    TakingIsReused(c, recs, env, leg);
    FleetRecordsAsForeseen(c, recs, env);
    var (d, out) := FleetRecords(c, recs, env);
    ReuseIsForeseen(c, d, out, recs, env, leg);
  }

  /** The smallest failing dispatch: one record whose run name is the rejected leg's rid, when no
      planned leg runs under that name. */
  lemma RecordNamedLikeRejectedLeg(c: Campaign, env: Setting, leg: string)
    requires leg !in Rids(c.configs) && PlanDropped(c.flow, leg) && ByName(c.configs, leg).None?
    ensures !PlanDropped(ExecuteFleet(c, [Record(Named(leg), None, false)], env).0.flow, leg)
  {
    var rec := Record(Named(leg), None, false);
    FirstForExtends(c.configs, [], rec, leg);
    assert [] + [rec] == [rec];
    PlanningDropSurvivesExactly(c, [rec], env, leg);
  }
}

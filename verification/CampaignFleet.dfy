/** `execute_fleet` against any dispatch list: every planned leg gets exactly one result,
    and the cut-flow row tells the same story as the result. */
module CampaignFleet {
  import opened Prelude
  import opened CutFlow
  import opened Shipment
  import opened CampaignModel

  // ---- rows

  /** Planned and past the launch gate. */
  ghost predicate GateRow(r: LegRow) {
    |r.cells| == STAGES && r.cells[PLANNED] == Passed && r.cells[LAUNCH_GATE] == Passed
  }

  ghost predicate AllPassed(r: LegRow) {
    |r.cells| == STAGES && forall j :: 0 <= j < STAGES ==> r.cells[j] == Passed
  }

  ghost predicate DroppedWithReason(r: LegRow) {
    |r.cells| == STAGES && r.cells[REGISTERED_STAGE] == Dropped && exists i :: i in r.why && r.why[i] != ""
  }

  /** A success shows an unbroken row, anything else a drop with a recorded reason. */
  ghost predicate RowTells(r: LegRow, s: Status) {
    if Succeeded(s) then AllPassed(r) else DroppedWithReason(r)
  }

  lemma DropTells(r: LegRow, i: nat, reason: string)
    requires |r.cells| == STAGES && i < STAGES
    ensures DroppedWithReason(MarkRow(r, i, false, reason))
    ensures GateRow(r) && i >= COMPLETED ==> GateRow(MarkRow(r, i, false, reason))
  {
    DropForcesTail(r, i, reason, REGISTERED_STAGE);
  }

  /** Rows that have passed everything before stage i. */
  ghost predicate PassedUpTo(r: LegRow, i: nat) {
    |r.cells| == STAGES && i <= STAGES && forall j :: 0 <= j < i ==> r.cells[j] == Passed
  }

  lemma PassExtends(r: LegRow, i: nat, reason: string)
    requires PassedUpTo(r, i) && i < STAGES
    ensures PassedUpTo(MarkRow(r, i, true, reason), i + 1)
  {
  }

  // ---- one leg's governance

  function Known(c: Campaign, rid: string): Option<Digest> {
    if rid in c.ingested then Some(c.ingested[rid]) else None
  }

  /** The status a shipment earns, from its content and what the corpus already holds. */
  ghost function GovernStatus(s: Shipment, required: map<string, string>, known: Option<Digest>): Status {
    if !WellShaped(s) || !Verified(s, required) || HashProducts(s.products.value).None? then REJECTED
    else if known.None? then REGISTERED
    else if known == HashProducts(s.products.value) then SKIP_OK
    else CONFLICT
  }

  ghost function RecordStatus(rec: Record, cfg: Config, known: Option<Digest>, env: Setting): Status {
    match rec.result
    case Some(s) => GovernStatus(s, env.required, known)
    case None =>
      if !rec.skipped then LOST
      else if known.Some? then SKIP_OK
      else if cfg.name in env.done then GovernStatus(env.done[cfg.name], env.required, known)
      else LOST
  }

  ghost predicate SameRow(c: Campaign, d: Campaign, leg: string) {
    (leg in c.flow <==> leg in d.flow) && (leg in c.flow ==> c.flow[leg] == d.flow[leg])
  }

  /** Only the leg's own row is touched, and its conflict row if it was ingested before. */
  ghost predicate Touches(c: Campaign, d: Campaign, rid: string) {
    && d.configs == c.configs && d.gated == c.gated
    && (forall leg :: leg in c.flow ==> leg in d.flow)
    && (forall leg :: leg != rid && !(leg == rid + ".conflict" && rid in c.ingested) ==> SameRow(c, d, leg))
    && (forall leg :: leg != rid ==> Known(d, leg) == Known(c, leg))
    && (rid in c.ingested && rid + ".conflict" in d.flow && !SameRow(c, d, rid + ".conflict")
        ==> DroppedWithReason(d.flow[rid + ".conflict"]))
  }

  ghost predicate OnlyRow(f: FleetFlow, g: FleetFlow, row: string) {
    forall leg :: leg != row ==> (leg in f <==> leg in g) && (leg in f ==> f[leg] == g[leg])
  }

  lemma ConflictRowTells(f: FleetFlow, rid: string)
    ensures var g := ConflictRow(f, rid);
            && rid + ".conflict" in g && DroppedWithReason(g[rid + ".conflict"])
            && OnlyRow(f, g, rid + ".conflict")
  {
    var leg := rid + ".conflict";
    var e := Entered(f, leg);
    PassStagesOnlyOwn(e, leg, 0, REGISTERED_STAGE);
    DropTells(PassStages(e, leg, 0, REGISTERED_STAGE)[leg], REGISTERED_STAGE, "CONFLICT");
  }

  lemma {:induction false} PassStagesOnlyOwn(f: FleetFlow, rid: string, first: nat, last: nat)
    requires first <= last <= STAGES && rid in f
    ensures rid in PassStages(f, rid, first, last)
    ensures OnlyRow(f, PassStages(f, rid, first, last), rid)
    ensures PassedUpTo(f[rid], first) ==> PassedUpTo(PassStages(f, rid, first, last)[rid], last)
    decreases last - first
  {
    if first < last {
      PassStagesOnlyOwn(Marked(f, rid, first, true, ""), rid, first + 1, last);
      if PassedUpTo(f[rid], first) {
        PassExtends(f[rid], first, "");
      }
    }
  }

  /** What governing a leg must leave behind for its result to be the truth. */
  ghost predicate Tells(c: Campaign, d: Campaign, rid: string, status: Status) {
    Touches(c, d, rid) && rid in d.flow && RowTells(d.flow[rid], status) && GateRow(d.flow[rid])
  }

  lemma MarkTouchesOwn(c: Campaign, rid: string, i: nat, ok: bool, reason: string)
    requires rid in c.flow && PassedUpTo(c.flow[rid], i) && COMPLETED <= i < STAGES
    ensures var d := c.(flow := Marked(c.flow, rid, i, ok, reason));
            && Touches(c, d, rid) && rid in d.flow && d.ingested == c.ingested
            && GateRow(d.flow[rid])
            && (if ok then PassedUpTo(d.flow[rid], i + 1) else DroppedWithReason(d.flow[rid]))
  {
    PassExtends(c.flow[rid], i, reason);
    DropTells(c.flow[rid], i, reason);
    assert rid != rid + ".conflict" by { assert |rid + ".conflict"| > |rid|; }
  }

  lemma TellsCompose(c: Campaign, d: Campaign, e: Campaign, rid: string, status: Status)
    requires Touches(c, d, rid) && d.ingested == c.ingested && Tells(d, e, rid, status)
    requires SameRow(c, d, rid + ".conflict")
    ensures Tells(c, e, rid, status)
  {
    forall leg | leg != rid && !(leg == rid + ".conflict" && rid in c.ingested) ensures SameRow(c, e, leg) {
      assert SameRow(c, d, leg) && SameRow(d, e, leg);
    }
    forall leg | leg != rid ensures Known(e, leg) == Known(c, leg) {
      assert Known(d, leg) == Known(c, leg);
    }
  }

  lemma MarkKeepsConflictRow(c: Campaign, rid: string, i: nat, ok: bool, reason: string)
    requires i < STAGES
    ensures SameRow(c, c.(flow := Marked(c.flow, rid, i, ok, reason)), rid + ".conflict")
  {
    assert rid != rid + ".conflict" by { assert |rid + ".conflict"| > |rid|; }
  }

  lemma ConflictTells(c: Campaign, g: FleetFlow, rid: string)
    requires rid in c.flow && PassedUpTo(c.flow[rid], STAGES) && rid in c.ingested
    requires rid + ".conflict" in g && DroppedWithReason(g[rid + ".conflict"]) && OnlyRow(c.flow, g, rid + ".conflict")
    ensures Tells(c, c.(flow := g), rid, CONFLICT)
  {
    assert rid != rid + ".conflict" by { assert |rid + ".conflict"| > |rid|; }
  }

  lemma PassedTells(c: Campaign, g: FleetFlow, rid: string)
    requires rid in c.flow && rid in g && PassedUpTo(g[rid], STAGES) && OnlyRow(c.flow, g, rid)
    ensures Tells(c, c.(flow := g), rid, SKIP_OK)
  {
    assert rid != rid + ".conflict" by { assert |rid + ".conflict"| > |rid|; }
  }

  lemma AcceptTells(c: Campaign, rid: string, s: Shipment, content: Digest)
    requires rid in c.flow && PassedUpTo(c.flow[rid], STAGES)
    ensures var (d, status) := Accept(c, rid, s, content);
            && Tells(c, d, rid, status)
            && status == (if Known(c, rid).None? then REGISTERED
                          else if Known(c, rid) == Some(content) then SKIP_OK else CONFLICT)
  {
    if rid in c.ingested && c.ingested[rid] != content {
      ConflictRowTells(c.flow, rid);
      ConflictTells(c, ConflictRow(c.flow, rid), rid);
    } else {
      PassedTells(c, c.flow, rid);
    }
  }

  lemma IngestTells(c: Campaign, rid: string, s: Shipment)
    requires s.Parcel? && s.products.Dict? && rid in c.flow && PassedUpTo(c.flow[rid], REGISTERED_STAGE)
    ensures var (d, status) := Ingest(c, rid, s);
            && Tells(c, d, rid, status)
            && status == (if HashProducts(s.products.value).None? then REJECTED
                          else if Known(c, rid).None? then REGISTERED
                          else if Known(c, rid) == HashProducts(s.products.value) then SKIP_OK
                          else CONFLICT)
  {
    var content := HashProducts(s.products.value);
    if content.None? {
      MarkTouchesOwn(c, rid, REGISTERED_STAGE, false, "unhashable products");
    } else {
      var d := c.(flow := Marked(c.flow, rid, REGISTERED_STAGE, true, ""));
      MarkTouchesOwn(c, rid, REGISTERED_STAGE, true, "");
      MarkKeepsConflictRow(c, rid, REGISTERED_STAGE, true, "");
      AcceptTells(d, rid, s, content.value);
      var (e, status) := Accept(d, rid, s, content.value);
      TellsCompose(c, d, e, rid, status);
    }
  }

  lemma GovernContentTells(c: Campaign, rid: string, s: Shipment, required: map<string, string>)
    requires rid in c.flow && PassedUpTo(c.flow[rid], VERIFIED) && WellShaped(s)
    ensures var (d, status) := GovernContent(c, rid, s, required);
            Tells(c, d, rid, status) && status == GovernStatus(s, required, Known(c, rid))
  {
    if !Verified(s, required) {
      MarkTouchesOwn(c, rid, VERIFIED, false, "violations");
    } else {
      var d := c.(flow := Marked(c.flow, rid, VERIFIED, true, ""));
      MarkTouchesOwn(c, rid, VERIFIED, true, "");
      MarkKeepsConflictRow(c, rid, VERIFIED, true, "");
      IngestTells(d, rid, s);
      var (e, status) := Ingest(d, rid, s);
      TellsCompose(c, d, e, rid, status);
    }
  }

  lemma GovernShapeTells(c: Campaign, rid: string, s: Shipment, required: map<string, string>)
    requires rid in c.flow && PassedUpTo(c.flow[rid], SHIPPED)
    ensures var (d, status) := GovernShape(c, rid, s, required);
            Tells(c, d, rid, status) && status == GovernStatus(s, required, Known(c, rid))
  {
    if !WellShaped(s) {
      MarkTouchesOwn(c, rid, SHIPPED, false, "malformed shipment");
    } else {
      var d := c.(flow := Marked(c.flow, rid, SHIPPED, true, ""));
      MarkTouchesOwn(c, rid, SHIPPED, true, "");
      MarkKeepsConflictRow(c, rid, SHIPPED, true, "");
      GovernContentTells(d, rid, s, required);
      var (e, status) := GovernContent(d, rid, s, required);
      TellsCompose(c, d, e, rid, status);
    }
  }

  lemma GovernTells(c: Campaign, rid: string, s: Shipment, required: map<string, string>)
    requires rid in c.flow && GateRow(c.flow[rid])
    ensures var (d, status) := Govern(c, rid, s, required);
            Tells(c, d, rid, status) && status == GovernStatus(s, required, Known(c, rid))
  {
    var d := c.(flow := Marked(c.flow, rid, COMPLETED, true, ""));
    MarkTouchesOwn(c, rid, COMPLETED, true, "");
    MarkKeepsConflictRow(c, rid, COMPLETED, true, "");
    GovernShapeTells(d, rid, s, required);
    var (e, status) := GovernShape(d, rid, s, required);
    TellsCompose(c, d, e, rid, status);
  }

  lemma LossTells(c: Campaign, rid: string, reason: string)
    requires rid in c.flow && GateRow(c.flow[rid])
    ensures Tells(c, Lose(c, rid, reason), rid, LOST)
  {
    MarkTouchesOwn(c, rid, COMPLETED, false, reason);
  }

  lemma PlannedRecordTells(c: Campaign, cfg: Config, rec: Record, env: Setting)
    requires cfg.rid in c.flow && GateRow(c.flow[cfg.rid])
    ensures var (d, status) := PlannedRecord(c, cfg, rec, env);
            && Tells(c, d, cfg.rid, status)
            && status == RecordStatus(rec, cfg, Known(c, cfg.rid), env)
  {
    match rec.result {
      case Some(s) => GovernTells(c, cfg.rid, s, env.required);
      case None =>
        if rec.skipped {
          SkipTells(c, cfg, env);
        } else {
          LossTells(c, cfg.rid, "no result (host lost)");
        }
    }
  }

  lemma SkipTells(c: Campaign, cfg: Config, env: Setting)
    requires cfg.rid in c.flow && GateRow(c.flow[cfg.rid])
    ensures var (d, status) := OnSkip(c, cfg, env);
            && Tells(c, d, cfg.rid, status)
            && status == RecordStatus(Record(Absent, None, true), cfg, Known(c, cfg.rid), env)
  {
    if cfg.rid in c.ingested {
      PassStagesOnlyOwn(c.flow, cfg.rid, COMPLETED, STAGES);
      PassedTells(c, PassStages(c.flow, cfg.rid, COMPLETED, STAGES), cfg.rid);
    } else if cfg.name in env.done {
      GovernTells(c, cfg.rid, env.done[cfg.name], env.required);
    } else {
      LossTells(c, cfg.rid, "skip signaled but no DONE.json result");
    }
  }

  lemma ExecuteLegTells(c: Campaign, cfg: Config, outcome: RunOutcome, env: Setting)
    requires cfg.rid in c.flow && GateRow(c.flow[cfg.rid])
    ensures var (d, status) := ExecuteLeg(c, cfg, outcome, env);
            && Tells(c, d, cfg.rid, status)
            && status == match outcome
                         case Died(_) => LOST
                         case Shipped(result) =>
                           RecordStatus(Record(Absent, result, true), cfg, Known(c, cfg.rid), env)
  {
    match outcome {
      case Died(message) => LossTells(c, cfg.rid, "HOST_LOST: " + message);
      case Shipped(None) => SkipTells(c, cfg, env);
      case Shipped(Some(s)) => GovernTells(c, cfg.rid, s, env.required);
    }
  }

  // ---- where a leg's row stops

  /** Passed up to a stage, dropped there with a reason of its own, and dropped from there on. */
  ghost predicate StopsAt(r: LegRow, stage: nat) {
    && |r.cells| == 6 && stage < 6 && stage in r.why && r.why[stage] != ""
    && forall j :: 0 <= j < 6 ==> r.cells[j] == if j < stage then Passed else Dropped
  }

  /** The stage a shipment fails at, if any: not a parcel with dicts where it must have them, not
      verified, or products that cannot be hashed. */
  ghost function FailsAt(s: Shipment, required: map<string, string>): Option<nat> {
    if s.NotADict? || !s.products.Dict? || s.sidecar.WrongType? || s.attested.WrongType? then Some(3)
    else if !Verified(s, required) then Some(4)
    else if !s.products.value.keysSortable then Some(5)
    else None
  }

  ghost predicate RowShows(r: LegRow, stop: Option<nat>) {
    match stop
    case None => AllPassed(r)
    case Some(stage) => StopsAt(r, stage)
  }

  lemma DropStops(f: FleetFlow, rid: string, i: nat, reason: string)
    requires rid in f && PassedUpTo(f[rid], i) && i < STAGES
    ensures StopsAt(Marked(f, rid, i, false, reason)[rid], i)
  {
  }

  lemma AcceptKeepsRow(c: Campaign, rid: string, s: Shipment, content: Digest)
    requires rid in c.flow
    ensures rid in Accept(c, rid, s, content).0.flow && Accept(c, rid, s, content).0.flow[rid] == c.flow[rid]
  {
    ConflictRowTells(c.flow, rid);
    assert |rid + ".conflict"| > |rid|;
  }

  lemma ContentShows(c: Campaign, rid: string, s: Shipment, required: map<string, string>)
    requires rid in c.flow && PassedUpTo(c.flow[rid], VERIFIED) && WellShaped(s)
    ensures var d := GovernContent(c, rid, s, required).0; rid in d.flow && RowShows(d.flow[rid], FailsAt(s, required))
  {
    if !Verified(s, required) {
      DropStops(c.flow, rid, VERIFIED, "violations");
    } else {
      var verified := c.(flow := Marked(c.flow, rid, VERIFIED, true, ""));
      PassExtends(c.flow[rid], VERIFIED, "");
      DropStops(verified.flow, rid, REGISTERED_STAGE, "unhashable products");
      PassExtends(verified.flow[rid], REGISTERED_STAGE, "");
      if HashProducts(s.products.value).Some? {
        var registered := verified.(flow := Marked(verified.flow, rid, REGISTERED_STAGE, true, ""));
        AcceptKeepsRow(registered, rid, s, HashProducts(s.products.value).value);
      }
    }
  }

  /** A governed leg's row stops exactly where its shipment fails: at `shipped` when malformed, at
      `verified` when not verified, at `registered` when it cannot be hashed, and nowhere else. */
  lemma GovernShows(c: Campaign, rid: string, s: Shipment, required: map<string, string>)
    requires rid in c.flow && GateRow(c.flow[rid])
    ensures var d := Govern(c, rid, s, required).0; rid in d.flow && RowShows(d.flow[rid], FailsAt(s, required))
    ensures Govern(c, rid, s, required).1 == REJECTED <==> FailsAt(s, required).Some?
  {
    var completed := Marked(c.flow, rid, COMPLETED, true, "");
    PassExtends(c.flow[rid], COMPLETED, "");
    DropStops(completed, rid, SHIPPED, "malformed shipment");
    PassExtends(completed[rid], SHIPPED, "");
    if WellShaped(s) {
      ContentShows(c.(flow := Marked(completed, rid, SHIPPED, true, "")), rid, s, required);
    }
  }

  /** Where a planned record's row stops: a lost leg's at `completed`, a governed one's where its
      shipment fails, a finished one's nowhere. */
  ghost function StopOf(rec: Record, cfg: Config, known: bool, env: Setting): Option<nat> {
    match rec.result
    case Some(s) => FailsAt(s, env.required)
    case None =>
      if !rec.skipped then Some(2)
      else if known then None
      else if cfg.name in env.done then FailsAt(env.done[cfg.name], env.required)
      else Some(2)
  }

  lemma PlannedRecordShows(c: Campaign, cfg: Config, rec: Record, env: Setting)
    requires cfg.rid in c.flow && GateRow(c.flow[cfg.rid])
    ensures var d := PlannedRecord(c, cfg, rec, env).0;
            cfg.rid in d.flow && RowShows(d.flow[cfg.rid], StopOf(rec, cfg, Known(c, cfg.rid).Some?, env))
  {
    DropStops(c.flow, cfg.rid, COMPLETED, "no result (host lost)");
    DropStops(c.flow, cfg.rid, COMPLETED, "skip signaled but no DONE.json result");
    if rec.result.Some? {
      GovernShows(c, cfg.rid, rec.result.value, env.required);
    } else if rec.skipped && cfg.rid in c.ingested {
      PassStagesOnlyOwn(c.flow, cfg.rid, COMPLETED, STAGES);
    } else if rec.skipped && cfg.name in env.done {
      GovernShows(c, cfg.rid, env.done[cfg.name], env.required);
    }
  }

  // ---- the fold over dispatch records

  ghost predicate DistinctConfigs(configs: seq<Config>) {
    forall i, j :: 0 <= i < j < |configs| ==>
      configs[i].rid != configs[j].rid && configs[i].name != configs[j].name
  }

  /** Gated, with pairwise different rids and run names, every planned row past the gate. */
  ghost predicate Ready(c: Campaign) {
    && DistinctConfigs(c.configs)
    && forall cfg :: cfg in c.configs ==> cfg.rid in c.flow && GateRow(c.flow[cfg.rid])
  }

  /** Some planned rid is the bookkeeping name of another planned leg: its duplicate row, or
      its conflict row when that leg is already in the corpus. */
  ghost predicate Collides(c: Campaign) {
    exists p, r :: p in c.configs && r in c.configs && CollidesWith(c, p, r)
  }

  ghost predicate CollidesWith(c: Campaign, p: Config, r: Config) {
    p.rid == r.rid + ".dup" || (p.rid == r.rid + ".conflict" && r.rid in c.ingested)
  }

  /** The first dispatch record that carries a given run name. */
  function FirstRecord(recs: seq<Record>, name: string): Option<Record> {
    if recs == [] then None
    else
      var earlier := FirstRecord(recs[..|recs| - 1], name);
      if earlier.Some? then earlier
      else if recs[|recs| - 1].run == Named(name) then Some(recs[|recs| - 1])
      else None
  }

  lemma {:induction false} ByNameFinds(configs: seq<Config>, name: string)
    ensures ByName(configs, name).Some? ==>
              ByName(configs, name).value in configs && ByName(configs, name).value.name == name
    ensures ByName(configs, name).None? ==> forall cfg :: cfg in configs ==> cfg.name != name
  {
    if configs != [] {
      ByNameFinds(configs[..|configs| - 1], name);
      assert configs == configs[..|configs| - 1] + [configs[|configs| - 1]];
    }
  }

  /** Of several configs under one run name the last is the one found. */
  lemma {:induction false} ByNameFindsLast(configs: seq<Config>, name: string, i: nat)
    requires i < |configs| && configs[i].name == name
    requires forall j :: i < j < |configs| ==> configs[j].name != name
    ensures ByName(configs, name) == Some(configs[i])
  {
    if i < |configs| - 1 {
      ByNameFindsLast(configs[..|configs| - 1], name, i);
    }
  }

  ghost predicate PlannedTold(c0: Campaign, c: Campaign, out: Report, recs: seq<Record>, env: Setting, cfg: Config) {
    && cfg.rid in c.flow && GateRow(c.flow[cfg.rid])
    && (cfg.rid !in out ==> Known(c, cfg.rid) == Known(c0, cfg.rid))
    && (cfg.rid in out ==> RowTells(c.flow[cfg.rid], out[cfg.rid]))
    && (match FirstRecord(recs, cfg.name)
        case None => cfg.rid !in out
        case Some(rec) =>
          && cfg.rid in out && out[cfg.rid] == RecordStatus(rec, cfg, Known(c0, cfg.rid), env)
          && RowShows(c.flow[cfg.rid], StopOf(rec, cfg, Known(c0, cfg.rid).Some?, env)))
  }

  ghost predicate StrangerTold(c: Campaign, out: Report, key: string) {
    key in out && key !in Rids(c.configs) ==>
      out[key] == REJECTED && key in c.flow && DroppedWithReason(c.flow[key])
  }

  ghost predicate FleetTold(c0: Campaign, c: Campaign, out: Report, recs: seq<Record>, env: Setting) {
    && c.configs == c0.configs && c.gated == c0.gated
    && (forall cfg :: cfg in c0.configs ==> PlannedTold(c0, c, out, recs, env, cfg))
    && (forall key :: StrangerTold(c, out, key))
  }

  /** Resetting a bookkeeping row that no planned leg owns. */
  lemma SideRowTold(c0: Campaign, c: Campaign, out: Report, recs: seq<Record>, env: Setting, leg: string,
                    reason: string)
    requires FleetTold(c0, c, out, recs, env) && leg !in Rids(c0.configs)
    ensures var d := c.(flow := Marked(Entered(c.flow, leg), leg, COMPLETED, false, reason));
            FleetTold(c0, d, out, recs, env) && leg in d.flow && DroppedWithReason(d.flow[leg])
  {
    var d := c.(flow := Marked(Entered(c.flow, leg), leg, COMPLETED, false, reason));
    DropTells(EnterRow(STAGES), COMPLETED, reason);
    forall cfg | cfg in c0.configs ensures PlannedTold(c0, d, out, recs, env, cfg) {
      assert PlannedTold(c0, c, out, recs, env, cfg);
      assert cfg.rid in Rids(c0.configs);
    }
    forall key ensures StrangerTold(d, out, key) {
      assert StrangerTold(c, out, key);
    }
  }

  lemma FirstRecordExtends(recs: seq<Record>, rec: Record, name: string)
    ensures FirstRecord(recs + [rec], name)
         == if FirstRecord(recs, name).Some? then FirstRecord(recs, name)
            else if rec.run == Named(name) then Some(rec) else None
  {
    assert (recs + [rec])[..|recs|] == recs;
  }

  lemma FleetRecordTold(c0: Campaign, c: Campaign, out: Report, recs: seq<Record>, rec: Record, env: Setting)
    requires Ready(c0) && !Collides(c0) && FleetTold(c0, c, out, recs, env)
    ensures var (d, o) := FleetRecord(c, out, rec, env); FleetTold(c0, d, o, recs + [rec], env)
  {
    forall name ensures FirstRecord(recs + [rec], name)
         == if FirstRecord(recs, name).Some? then FirstRecord(recs, name)
            else if rec.run == Named(name) then Some(rec) else None
    {
      FirstRecordExtends(recs, rec, name);
    }
    if rec.run.Named? {
      ByNameFinds(c.configs, rec.run.name);
    }
    match Lookup(c.configs, rec.run) {
      case None => StrangerRecordTold(c0, c, out, recs, rec, env);
      case Some(cfg) =>
        if cfg.rid in out {
          DuplicateRecordTold(c0, c, out, recs, rec, env, cfg);
        } else {
          NewRecordTold(c0, c, out, recs, rec, env, cfg);
        }
    }
  }

  lemma StrangerRecordTold(c0: Campaign, c: Campaign, out: Report, recs: seq<Record>, rec: Record, env: Setting)
    requires FleetTold(c0, c, out, recs, env) && Lookup(c.configs, rec.run).None?
    requires forall cfg :: cfg in c0.configs ==> rec.run != Named(cfg.name)
    ensures var (d, o) := FleetRecord(c, out, rec, env); FleetTold(c0, d, o, recs + [rec], env)
  {
    var key := FreshKey(KeyText(rec.run), Rids(c.configs) + out.Keys);
    SideRowTold(c0, c, out, recs, env, key, "unplanned run name");
    var (d, o) := FleetRecord(c, out, rec, env);
    forall cfg | cfg in c0.configs ensures PlannedTold(c0, d, o, recs + [rec], env, cfg) {
      assert PlannedTold(c0, d, out, recs, env, cfg);
      FirstRecordExtends(recs, rec, cfg.name);
      assert cfg.rid in Rids(c0.configs);
    }
    forall k ensures StrangerTold(d, o, k) {
      assert StrangerTold(d, out, k);
    }
  }

  lemma DuplicateRecordTold(c0: Campaign, c: Campaign, out: Report, recs: seq<Record>, rec: Record, env: Setting,
                            cfg: Config)
    requires Ready(c0) && !Collides(c0) && FleetTold(c0, c, out, recs, env)
    requires cfg in c0.configs && rec.run == Named(cfg.name) && Lookup(c.configs, rec.run) == Some(cfg)
    requires cfg.rid in out
    ensures var (d, o) := FleetRecord(c, out, rec, env); FleetTold(c0, d, o, recs + [rec], env)
  {
    assert cfg.rid + ".dup" !in Rids(c0.configs) by {
      if cfg.rid + ".dup" in Rids(c0.configs) {
        var p :| p in c0.configs && p.rid == cfg.rid + ".dup";
        assert CollidesWith(c0, p, cfg);
      }
    }
    SideRowTold(c0, c, out, recs, env, cfg.rid + ".dup", "duplicate dispatch record");
    var (d, o) := FleetRecord(c, out, rec, env);
    forall p | p in c0.configs ensures PlannedTold(c0, d, o, recs + [rec], env, p) {
      assert PlannedTold(c0, d, out, recs, env, p) && PlannedTold(c0, c, out, recs, env, p);
      FirstRecordExtends(recs, rec, p.name);
      SameNameSameConfig(c0.configs, p, cfg);
    }
  }

  lemma SameNameSameConfig(configs: seq<Config>, p: Config, q: Config)
    requires DistinctConfigs(configs) && p in configs && q in configs
    ensures p.name == q.name ==> p == q
    ensures p.rid == q.rid ==> p == q
  {
    var i :| 0 <= i < |configs| && configs[i] == p;
    var j :| 0 <= j < |configs| && configs[j] == q;
  }

  lemma NewRecordTold(c0: Campaign, c: Campaign, out: Report, recs: seq<Record>, rec: Record, env: Setting, cfg: Config)
    requires Ready(c0) && !Collides(c0) && FleetTold(c0, c, out, recs, env)
    requires cfg in c0.configs && rec.run == Named(cfg.name) && Lookup(c.configs, rec.run) == Some(cfg)
    requires cfg.rid !in out
    ensures var (d, o) := FleetRecord(c, out, rec, env); FleetTold(c0, d, o, recs + [rec], env)
  {
    assert PlannedTold(c0, c, out, recs, env, cfg);
    PlannedRecordTells(c, cfg, rec, env);
    PlannedRecordShows(c, cfg, rec, env);
    var (d, status) := PlannedRecord(c, cfg, rec, env);
    ToldKeeps(c0, c, out, recs, rec, env, cfg, d, status);
  }

  /** From one leg's governance to the whole report. */
  lemma ToldKeeps(c0: Campaign, c: Campaign, out: Report, recs: seq<Record>, rec: Record, env: Setting, cfg: Config,
                  d: Campaign, status: Status)
    requires Ready(c0) && !Collides(c0) && FleetTold(c0, c, out, recs, env)
    requires cfg in c0.configs && rec.run == Named(cfg.name) && cfg.rid !in out
    requires Tells(c, d, cfg.rid, status) && status == RecordStatus(rec, cfg, Known(c, cfg.rid), env)
    requires RowShows(d.flow[cfg.rid], StopOf(rec, cfg, Known(c, cfg.rid).Some?, env))
    ensures FleetTold(c0, d, out[cfg.rid := status], recs + [rec], env)
  {
    var o := out[cfg.rid := status];
    assert PlannedTold(c0, c, out, recs, env, cfg);
    forall p | p in c0.configs ensures PlannedTold(c0, d, o, recs + [rec], env, p) {
      assert PlannedTold(c0, c, out, recs, env, p);
      LegStaysTold(c0, c, out, recs, rec, env, cfg, d, status, p);
    }
    forall key ensures StrangerTold(d, o, key) {
      assert StrangerTold(c, out, key);
      assert cfg.rid in Rids(c.configs);
      assert SameRow(c, d, key) || key == cfg.rid || key == cfg.rid + ".conflict";
    }
  }

  /** For the leg itself and for every other planned leg. */
  lemma LegStaysTold(c0: Campaign, c: Campaign, out: Report, recs: seq<Record>, rec: Record, env: Setting, cfg: Config,
                     d: Campaign, status: Status, p: Config)
    requires DistinctConfigs(c0.configs) && !Collides(c0) && p in c0.configs && cfg in c0.configs
    requires PlannedTold(c0, c, out, recs, env, p) && PlannedTold(c0, c, out, recs, env, cfg)
    requires rec.run == Named(cfg.name) && cfg.rid !in out && Known(c, cfg.rid) == Known(c0, cfg.rid)
    requires Tells(c, d, cfg.rid, status) && status == RecordStatus(rec, cfg, Known(c, cfg.rid), env)
    requires RowShows(d.flow[cfg.rid], StopOf(rec, cfg, Known(c, cfg.rid).Some?, env))
    ensures PlannedTold(c0, d, out[cfg.rid := status], recs + [rec], env, p)
  {
    FirstRecordExtends(recs, rec, p.name);
    SameNameSameConfig(c0.configs, p, cfg);
    if p != cfg {
      assert !CollidesWith(c0, p, cfg);
      assert SameRow(c, d, p.rid);
    }
  }

  lemma {:induction false} FleetRecordsTold(c0: Campaign, recs: seq<Record>, env: Setting)
    requires Ready(c0) && !Collides(c0)
    ensures var (d, out) := FleetRecords(c0, recs, env); FleetTold(c0, d, out, recs, env)
  {
    if recs == [] {
      forall cfg | cfg in c0.configs ensures PlannedTold(c0, c0, map[], [], env, cfg) {
      }
    } else {
      var n := |recs| - 1;
      FleetRecordsTold(c0, recs[..n], env);
      var (d, out) := FleetRecords(c0, recs[..n], env);
      FleetRecordTold(c0, d, out, recs[..n], recs[n], env);
      assert recs[..n] + [recs[n]] == recs;
    }
  }

  // ---- reconciliation and the theorem

  /** The result a planned leg must get: that of its first record, or LOST. */
  ghost function ExpectedStatus(c0: Campaign, recs: seq<Record>, env: Setting, cfg: Config): Status {
    match FirstRecord(recs, cfg.name)
    case None => LOST
    case Some(rec) => RecordStatus(rec, cfg, Known(c0, cfg.rid), env)
  }

  /** Where its row must stop. */
  ghost function ExpectedStop(c0: Campaign, recs: seq<Record>, env: Setting, cfg: Config): Option<nat> {
    match FirstRecord(recs, cfg.name)
    case None => Some(2)
    case Some(rec) => StopOf(rec, cfg, Known(c0, cfg.rid).Some?, env)
  }

  /** Result and row agree for every leg the report mentions. */
  ghost predicate Agrees(d: Campaign, out: Report) {
    forall rid :: rid in out ==> rid in d.flow && RowTells(d.flow[rid], out[rid])
  }

  ghost predicate Coherent(c0: Campaign, recs: seq<Record>, env: Setting) {
    var (d, out) := ExecuteFleet(c0, recs, env);
    Agrees(d, out)
  }

  ghost predicate ReconciledTold(c: Campaign, d: Campaign, out: Report, o: Report, cfg: Config, covered: bool) {
    && cfg.rid in d.flow && GateRow(d.flow[cfg.rid])
    && (cfg.rid in out ==> cfg.rid in o && o[cfg.rid] == out[cfg.rid] && SameRow(c, d, cfg.rid))
    && (covered ==> cfg.rid in o)
    && (cfg.rid in o ==> RowTells(d.flow[cfg.rid], o[cfg.rid]))
    && (cfg.rid in o && cfg.rid !in out ==> o[cfg.rid] == LOST && StopsAt(d.flow[cfg.rid], 2))
  }

  lemma {:induction false} ReconcileTold(c0: Campaign, c: Campaign, out: Report, recs: seq<Record>, env: Setting,
                                         configs: seq<Config>)
    requires FleetTold(c0, c, out, recs, env) && forall cfg :: cfg in configs ==> cfg in c0.configs
    ensures var (d, o) := Reconcile(c, out, configs);
            && d.configs == c.configs && d.gated == c.gated && d.ingested == c.ingested
            && (forall cfg :: cfg in c0.configs ==> ReconciledTold(c, d, out, o, cfg, cfg in configs))
            && (forall key :: StrangerTold(d, o, key))
            && (forall key :: key in o ==> key in out || key in Rids(c0.configs))
  {
    if configs == [] {
      forall cfg | cfg in c0.configs ensures ReconciledTold(c, c, out, out, cfg, false) {
        assert PlannedTold(c0, c, out, recs, env, cfg);
      }
    } else {
      var n := |configs| - 1;
      ReconcileTold(c0, c, out, recs, env, configs[..n]);
      var (d, o) := Reconcile(c, out, configs[..n]);
      assert configs == configs[..n] + [configs[n]] && configs[n] in configs;
      if configs[n].rid !in o {
        LoseTold(c0, c, d, out, o, configs[..n], configs[n]);
      } else {
        forall cfg | cfg in c0.configs ensures ReconciledTold(c, d, out, o, cfg, cfg in configs) {
          assert ReconciledTold(c, d, out, o, cfg, cfg in configs[..n]);
        }
      }
    }
  }

  lemma LoseTold(c0: Campaign, c: Campaign, d: Campaign, out: Report, o: Report, before: seq<Config>, lost: Config)
    requires d.configs == c.configs == c0.configs && lost in c0.configs && lost.rid !in o
    requires forall cfg :: cfg in c0.configs ==> ReconciledTold(c, d, out, o, cfg, cfg in before)
    requires forall key :: StrangerTold(d, o, key)
    ensures var e := Lose(d, lost.rid, "dispatch returned no record");
            var q := o[lost.rid := LOST];
            && (forall cfg :: cfg in c0.configs ==> ReconciledTold(c, e, out, q, cfg, cfg in before + [lost]))
            && (forall key :: StrangerTold(e, q, key))
  {
    var e := Lose(d, lost.rid, "dispatch returned no record");
    var q := o[lost.rid := LOST];
    assert ReconciledTold(c, d, out, o, lost, lost in before);
    DropTells(d.flow[lost.rid], COMPLETED, "dispatch returned no record");
    DropStops(d.flow, lost.rid, COMPLETED, "dispatch returned no record");
    forall cfg | cfg in c0.configs ensures ReconciledTold(c, e, out, q, cfg, cfg in before + [lost]) {
      assert ReconciledTold(c, d, out, o, cfg, cfg in before);
    }
    forall key ensures StrangerTold(e, q, key) {
      assert StrangerTold(d, o, key);
      assert lost.rid in Rids(d.configs);
    }
  }

  /** The whole call: every planned leg reported as expected and told by its row, every other
      key a rejected stranger with its own dropped row. */
  ghost predicate Total(c0: Campaign, recs: seq<Record>, env: Setting, d: Campaign, out: Report) {
    && (forall cfg :: cfg in c0.configs ==> PlannedTotal(c0, recs, env, d, out, cfg))
    && (forall key :: StrangerTold(d, out, key))
    && d.configs == c0.configs && d.gated == c0.gated
  }

  ghost predicate PlannedTotal(c0: Campaign, recs: seq<Record>, env: Setting, d: Campaign, out: Report, cfg: Config) {
    && cfg.rid in out && out[cfg.rid] == ExpectedStatus(c0, recs, env, cfg)
    && cfg.rid in d.flow && GateRow(d.flow[cfg.rid]) && RowTells(d.flow[cfg.rid], out[cfg.rid])
    && RowShows(d.flow[cfg.rid], ExpectedStop(c0, recs, env, cfg))
  }

  lemma ExecuteFleetTotal(c0: Campaign, recs: seq<Record>, env: Setting) returns (d: Campaign, out: Report)
    requires Ready(c0) && !Collides(c0)
    ensures (d, out) == ExecuteFleet(c0, recs, env) && Total(c0, recs, env, d, out)
  {
    FleetRecordsTold(c0, recs, env);
    var (c, out0) := FleetRecords(c0, recs, env);
    ReconcileTold(c0, c, out0, recs, env, c0.configs);
    d, out := Reconcile(c, out0, c0.configs).0, Reconcile(c, out0, c0.configs).1;
    forall cfg | cfg in c0.configs ensures PlannedTotal(c0, recs, env, d, out, cfg) {
      PlannedIsTotal(c0, recs, env, c, out0, d, out, cfg);
    }
  }

  lemma PlannedIsTotal(c0: Campaign, recs: seq<Record>, env: Setting, c: Campaign, out0: Report,
                       d: Campaign, out: Report, cfg: Config)
    requires PlannedTold(c0, c, out0, recs, env, cfg) && ReconciledTold(c, d, out0, out, cfg, true)
    ensures PlannedTotal(c0, recs, env, d, out, cfg)
  {
  }

  lemma TotalIsCoherent(c0: Campaign, recs: seq<Record>, env: Setting, d: Campaign, out: Report, key: string)
    requires Total(c0, recs, env, d, out) && key in out
    ensures key in d.flow && RowTells(d.flow[key], out[key])
  {
    assert StrangerTold(d, out, key);
    if key in Rids(c0.configs) {
      var cfg :| cfg in c0.configs && cfg.rid == key;
      assert PlannedTotal(c0, recs, env, d, out, cfg);
    }
  }

  /** Totality and honesty of `execute_fleet`, for any list of dispatch records: missing,
      repeated, unknown or hostile names included. Every planned leg has exactly one result,
      that of its first record, or LOST, and its row stops at the stage that result stands for;
      every other key is a rejected stranger; and every result is what its cut-flow row says.
      The campaign stays ready for another call. */
  lemma FleetIsTotal(c0: Campaign, recs: seq<Record>, env: Setting)
    requires Ready(c0) && !Collides(c0)
    ensures var (d, out) := ExecuteFleet(c0, recs, env);
            && (forall cfg :: cfg in c0.configs ==>
                  && cfg.rid in out && out[cfg.rid] == ExpectedStatus(c0, recs, env, cfg)
                  && cfg.rid in d.flow && RowShows(d.flow[cfg.rid], ExpectedStop(c0, recs, env, cfg)))
            && (forall key :: key in out && key !in Rids(c0.configs) ==> out[key] == REJECTED)
            && Ready(d) && d.gated == c0.gated
    ensures Coherent(c0, recs, env)
  {
    var d, out := ExecuteFleetTotal(c0, recs, env);
    forall cfg | cfg in c0.configs
      ensures cfg.rid in out && out[cfg.rid] == ExpectedStatus(c0, recs, env, cfg)
      ensures cfg.rid in d.flow && GateRow(d.flow[cfg.rid])
      ensures RowShows(d.flow[cfg.rid], ExpectedStop(c0, recs, env, cfg))
    {
      assert PlannedTotal(c0, recs, env, d, out, cfg);
    }
    forall key | key in out
      ensures key in d.flow && RowTells(d.flow[key], out[key])
      ensures key !in Rids(c0.configs) ==> out[key] == REJECTED
    {
      TotalIsCoherent(c0, recs, env, d, out, key);
      assert StrangerTold(d, out, key);
    }
  }
}
